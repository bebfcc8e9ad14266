/**
 The daemon as a state machine. Every SQL statement or transaction, every access to a shared
 map and every channel operation of the HTTP handlers, the poller, the worker and the two log
 readers is one action; everything between two awaits may be interleaved with any other task.

 Channels are bags (their order is not used), task schedules are arbitrary, and everything
 outside the daemon (container exits, git, clocks, I/O failures) is a parameter of an action.
 */
module Protocol {
  import opened Options
  import opened Variants
  import opened Schema

  // -------- the state --------

  /** The two tasks that read a container's output. */
  datatype Reader = OutReader | ErrReader

  /** Where a reader is: `Have` holds a line, `AtMax` has also read k as the next log number. */
  datatype ReaderPc = Next | Have(line: string) | AtMax(line: string, k: nat) | Stored | Closed

  /** Who runs an `enqueue_build` transaction. */
  datatype Task = Handler(n: nat) | PollTask

  /** A transaction of `enqueue_build` after its SELECT: the snapshot it reads, and how many commits that includes. */
  datatype EnqueueTx = EnqueueTx(pkg: PkgId, trigger: Trigger, variant: Variant, seen: Tables, at: nat)

  /** Start-up: the HTTP API serves from the beginning, the worker only after the reap. */
  datatype Phase = Starting | Reaped | Serving

  /** The start-up scan of the queue. */
  datatype Scan = NotScanned | Sending(todo: seq<BuildId>) | Scanned | ScanFailed

  /** What `run_in_container` returns, as far as the queue depends on it. */
  datatype Outcome = Outcome(cancelled: bool, code: int)

  /** The program counter inside `process_one`; the claim returns the row, and with it the package's id. */
  datatype Stage =
    | Claimed(pkg: PkgId)
    | PackageFound
    | Registered
    | Inside
    | Exited(out: Outcome)
    | Drained(out: Outcome)
    | Unregistered(out: Outcome)
    | Stamped(out: Outcome)
    | Published
    | Cleaning

  datatype Worker = Off | Idle | Woken(id: BuildId) | Busy(b: BuildId, at: Stage)

  /** A package row as the poller saw it. */
  datatype Polled = Polled(pkg: PkgId, autoRebuild: bool)

  datatype PollerPc =
    | Sleeping
    | HavePackages(todo: seq<Polled>)
    | HaveQueued(todo: seq<Polled>, live: set<PkgId>)
    | Looping(todo: seq<Polled>, live: set<PkgId>)
    | Enqueuing(todo: seq<Polled>, live: set<PkgId>)

  /** Where a stored log line came from: the `index`-th line of a reader. */
  datatype Origin = Origin(reader: Reader, index: nat)

  /**
   What has happened so far. No action is guarded by any of it.
   - `claims`: the builds claimed, in order, over all incarnations of the daemon
   - `started`, `published`: builds whose container was spawned, whose artifacts were published
   - `cancelOk`: builds for which a cancel request was granted; `cancelledQueued`: while queued
   - `lost`: builds whose `select!` was won by the container; `stamped`: `finish_build` has run
   - `errored`: builds for which `process_one` returned an error in this incarnation
   - `scanned`, `scanMark`, `scanWhole`: the ids the start-up scan read, the next id at that
     time, and whether the scan read every queued build
   - `woken`: the ids sent to the worker by handlers in this incarnation
   - `pollWhole`: whether all poll snapshots so far read every live build
   - `produced`, `origins`: the lines each reader produced, and where stored lines came from
   */
  datatype History = History(
    claims: seq<BuildId>,
    started: set<BuildId>,
    published: set<BuildId>,
    cancelOk: set<BuildId>,
    cancelledQueued: set<BuildId>,
    lost: set<BuildId>,
    stamped: set<BuildId>,
    errored: set<BuildId>,
    scanned: set<BuildId>,
    scanMark: BuildId,
    scanWhole: bool,
    woken: set<BuildId>,
    pollWhole: bool,
    produced: map<(BuildId, Reader), seq<string>>,
    origins: map<BuildId, seq<Origin>>)

  /**
   - `commits`: how many writing transactions the database has committed
   - `wake`: ids sent to the worker and not yet received
   - `tokens`, `channels`: the keys of `cancel_tokens` and `log_channels`
   - `fired`: builds whose registered token was fired; a build registers one token in its life
   - `cancelling`: cancel handlers that changed the row and have not yet taken the token
   */
  datatype State = State(
    t: Tables,
    commits: nat,
    phase: Phase,
    scan: Scan,
    wake: multiset<BuildId>,
    worker: Worker,
    tokens: set<BuildId>,
    fired: set<BuildId>,
    channels: set<BuildId>,
    cancelling: set<BuildId>,
    readers: map<(BuildId, Reader), ReaderPc>,
    txs: map<Task, EnqueueTx>,
    poller: PollerPc,
    h: History)

  const SCAN_LIMIT: nat := 10000
  const POLL_LIMIT: nat := 1000
  const WORKER_ID := "paur-worker"

  const EMPTY_HISTORY := History([], {}, {}, {}, {}, {}, {}, {}, {}, 0, false, {}, true, map[], map[])

  /** A fresh database; the HTTP API is up. */
  const INITIAL := State(
    Tables(map[], map[], map[], 1), 0, Starting, NotScanned, multiset{}, Off, {}, {}, {}, {}, map[], map[], Sleeping, EMPTY_HISTORY)

  /** A statement or transaction that turns the tables into `t`; one that affects no row commits nothing. */
  ghost function Write(s: State, t: Tables, affected: bool): State {
    s.(t := t, commits := s.commits + if affected then 1 else 0)
  }

  // -------- start-up, crash --------

  datatype BootAction =
    | Crash
    | ReapStale(now: int)
    | StartWorker
    | ReadQueue
    | ScanError
    | SendScanned
    | ScanDone

  ghost predicate CanBoot(s: State, a: BootAction) {
    match a
    case Crash => true
    case ReapStale(now) => s.phase.Starting?
    case StartWorker => s.phase.Reaped?
    case ReadQueue => s.phase.Serving? && s.scan.NotScanned?
    case ScanError => s.phase.Serving? && s.scan.NotScanned?
    case SendScanned => s.scan.Sending? && s.scan.todo != []
    case ScanDone => s.scan.Sending? && s.scan.todo == []
  }

  ghost function DoBoot(s: State, a: BootAction): State
    requires CanBoot(s, a)
  {
    match a
    case Crash =>
      State(s.t, s.commits, Starting, NotScanned, multiset{}, Off, {}, s.fired, {}, {}, map[], map[], Sleeping,
            s.h.(errored := {}, scanned := {}, scanMark := 0, scanWhole := false, woken := {}))
    case ReapStale(now) => Write(s, Reap(s.t, now), WithStatus(s.t.builds, Running) != {}).(phase := Reaped)
    case StartWorker => s.(phase := Serving, worker := Idle)
    case ReadQueue =>
      var rows := ListBuilds(s.t.builds, Queued, SCAN_LIMIT);
      s.(scan := Sending(rows),
         h := s.h.(scanned := (set i | i in rows), scanMark := s.t.nextBuildId,
                   scanWhole := |WithStatus(s.t.builds, Queued)| <= SCAN_LIMIT))
    case ScanError => s.(scan := ScanFailed)
    case SendScanned => s.(scan := Sending(s.scan.todo[1..]), wake := s.wake + multiset{s.scan.todo[0]})
    case ScanDone => s.(scan := Scanned)
  }

  // -------- HTTP handlers --------

  datatype ApiAction =
    | StorePackage(p: PkgId, pkg: Package)
    | RemovePackage(p: PkgId)
    | WriteElsewhere
    | SendWake(id: BuildId)
    | ReadNum(task: Task, p: PkgId, trigger: Trigger, variant: Variant)
    | InsertRow(task: Task, now: int)
    | AbortTx(task: Task)
    | CancelRow(id: BuildId, now: int)
    | FireToken(id: BuildId)

  /**
   The INSERT goes through when nothing was committed since the snapshot was taken, to whatever
   table and whether or not it was changed back, and no constraint is violated.
   */
  ghost predicate InsertGoes(s: State, tx: EnqueueTx) {
    tx.at == s.commits && InsertAllowed(s.t, tx.pkg, NextNum(tx.seen, tx.pkg))
  }

  ghost predicate CanApi(s: State, a: ApiAction) {
    match a
    case StorePackage(p, pkg) => true
    case RemovePackage(p) => true
    case WriteElsewhere => true
    case SendWake(id) => id < s.t.nextBuildId
    case ReadNum(task, p, trigger, variant) => task.Handler? && task !in s.txs && trigger != Poll
    case InsertRow(task, now) => task.Handler? && task in s.txs && InsertGoes(s, s.txs[task])
    case AbortTx(task) => task.Handler? && task in s.txs
    case CancelRow(id, now) => true
    case FireToken(id) => id in s.cancelling
  }

  /** The new row of a transaction, its empty log and the empty record of the log's origins. */
  ghost function Inserted(s: State, tx: EnqueueTx, now: int): State {
    Write(s, InsertBuild(s.t, tx.pkg, NextNum(tx.seen, tx.pkg), tx.trigger, tx.variant, now), true).(
       h := s.h.(origins := s.h.origins[s.t.nextBuildId := []]))
  }

  ghost function DoApi(s: State, a: ApiAction): State
    requires CanApi(s, a)
  {
    match a
    case StorePackage(p, pkg) => Write(s, PutPackage(s.t, p, pkg), true)
    case RemovePackage(p) => Write(s, DropPackage(s.t, p), p in s.t.packages)
    // A write to a table or column that is not modelled.
    case WriteElsewhere => Write(s, s.t, true)
    case SendWake(id) =>
      if s.phase.Serving? then s.(wake := s.wake + multiset{id}, h := s.h.(woken := s.h.woken + {id})) else s
    case ReadNum(task, p, trigger, variant) =>
      s.(txs := s.txs[task := EnqueueTx(p, trigger, variant, s.t, s.commits)])
    case InsertRow(task, now) => Inserted(s, s.txs[task], now).(txs := s.txs - {task})
    case AbortTx(task) => s.(txs := s.txs - {task})
    case CancelRow(id, now) =>
      var granted := if CancelOutcomeOf(s.t, id).WasCancelled? then {id} else {};
      Write(s, Cancel(s.t, id, now), granted != {}).(
         cancelling := s.cancelling + granted,
         h := s.h.(cancelOk := s.h.cancelOk + granted,
                   cancelledQueued := s.h.cancelledQueued + if IsQueued(s.t, id) then {id} else {}))
    case FireToken(id) =>
      s.(cancelling := s.cancelling - {id},
         tokens := s.tokens - {id},
         fired := s.fired + if id in s.tokens then {id} else {})
  }

  // -------- the worker --------

  datatype WorkerAction =
    | Receive(id: BuildId)
    | ClaimBuild(now: int)
    | SkipBuild
    | FindPackage
    | RegisterToken
    | Spawn
    | SelectCancel(code: int)
    | SelectExit(code: int)
    | JoinReaders
    | RemoveToken
    | Stamp(now: int)
    | Publish(ok: bool)
    | SkipPublish
    | RecordFile(file: string, version: string)
    | SkipRecord
    | DropChannel
    | ReturnError

  function FinalStatus(out: Outcome): Status {
    if out.cancelled then Cancelled else if out.code == 0 then Success else Failed
  }

  function FinalExitCode(out: Outcome): Option<int> {
    if out.cancelled then None else Some(out.code)
  }

  ghost predicate At(s: State, stage: Stage) {
    s.worker.Busy? && s.worker.at == stage
  }

  /** The stages at which `process_one` has an early return. */
  predicate MayFail(w: Worker) {
    w.Woken? || (w.Busy? && (w.at.Claimed? || w.at.PackageFound? || w.at.Registered? || w.at.Inside?
                             || w.at.Drained? || w.at.Unregistered?))
  }

  ghost predicate CanWorker(s: State, a: WorkerAction) {
    match a
    case Receive(id) => s.worker.Idle? && id in s.wake
    case ClaimBuild(now) => s.worker.Woken? && IsQueued(s.t, s.worker.id)
    case SkipBuild => s.worker.Woken? && !IsQueued(s.t, s.worker.id)
    case FindPackage => s.worker.Busy? && s.worker.at.Claimed? && s.worker.at.pkg in s.t.packages
    case RegisterToken => At(s, PackageFound)
    case Spawn => At(s, Registered)
    // The select is biased: a token that has fired wins.
    case SelectCancel(code) => At(s, Inside) && s.worker.b in s.fired
    case SelectExit(code) => At(s, Inside) && s.worker.b !in s.fired
    case JoinReaders =>
      && s.worker.Busy? && s.worker.at.Exited?
      && forall r: Reader :: (s.worker.b, r) in s.readers ==> s.readers[(s.worker.b, r)].Closed?
    case RemoveToken => s.worker.Busy? && s.worker.at.Drained?
    case Stamp(now) => s.worker.Busy? && s.worker.at.Unregistered?
    case Publish(ok) => s.worker.Busy? && s.worker.at.Stamped? && FinalStatus(s.worker.at.out).Success?
    case SkipPublish => s.worker.Busy? && s.worker.at.Stamped? && !FinalStatus(s.worker.at.out).Success?
    case RecordFile(file, version) => At(s, Published)
    case SkipRecord => At(s, Published)
    case DropChannel => At(s, Cleaning)
    case ReturnError => MayFail(s.worker)
  }

  ghost function Goto(s: State, at: Stage): State
    requires s.worker.Busy?
  {
    s.(worker := Busy(s.worker.b, at))
  }

  ghost function DoWorker(s: State, a: WorkerAction): State
    requires CanWorker(s, a)
  {
    match a
    case Receive(id) => s.(worker := Woken(id), wake := s.wake - multiset{id})
    case ClaimBuild(now) =>
      Write(s, Claim(s.t, s.worker.id, WORKER_ID, now), true).(
         worker := Busy(s.worker.id, Claimed(s.t.builds[s.worker.id].pkg)),
         h := s.h.(claims := s.h.claims + [s.worker.id]))
    case SkipBuild => s.(worker := Idle)
    case FindPackage => Goto(s, PackageFound)
    case RegisterToken => Goto(s, Registered).(tokens := s.tokens + {s.worker.b})
    case Spawn =>
      var b := s.worker.b;
      Goto(s, Inside).(
        readers := s.readers[(b, OutReader) := Next][(b, ErrReader) := Next],
        h := s.h.(started := s.h.started + {b},
                  produced := s.h.produced[(b, OutReader) := []][(b, ErrReader) := []]))
    case SelectCancel(code) => Goto(s, Exited(Outcome(true, code)))
    case SelectExit(code) => Goto(s, Exited(Outcome(false, code))).(h := s.h.(lost := s.h.lost + {s.worker.b}))
    case JoinReaders => Goto(s, Drained(s.worker.at.out))
    case RemoveToken => Goto(s, Unregistered(s.worker.at.out)).(tokens := s.tokens - {s.worker.b})
    case Stamp(now) =>
      var out := s.worker.at.out;
      Goto(Write(s, Finish(s.t, s.worker.b, FinalStatus(out), FinalExitCode(out), now), s.worker.b in s.t.builds), Stamped(out)).(
        h := s.h.(stamped := s.h.stamped + {s.worker.b}))
    case Publish(ok) =>
      if ok then Goto(s, Published).(h := s.h.(published := s.h.published + {s.worker.b}))
      else Goto(s, Cleaning)
    case SkipPublish => Goto(s, Cleaning)
    case RecordFile(file, version) =>
      Goto(Write(s, Record(s.t, s.worker.b, file, version), s.worker.b in s.t.builds), Cleaning)
    case SkipRecord => Goto(s, Cleaning)
    case DropChannel => s.(worker := Idle, channels := s.channels - {s.worker.b})
    case ReturnError =>
      var b := if s.worker.Woken? then s.worker.id else s.worker.b;
      s.(worker := Idle, h := s.h.(errored := s.h.errored + {b}))
  }

  // -------- the log readers --------

  datatype ReaderAction =
    | TakeLine(b: BuildId, r: Reader, line: string)
    | ReadMax(b: BuildId, r: Reader)
    | InsertLine(b: BuildId, r: Reader, now: int)
    | LoseLine(b: BuildId, r: Reader)
    | FanOut(b: BuildId, r: Reader)
    | Eof(b: BuildId, r: Reader)

  /** What `DbLogSink::write` stores: the line without carriage returns and line feeds. */
  function Stripped(line: string): string {
    if line == "" then ""
    else (if line[0] == '\r' || line[0] == '\n' then "" else [line[0]]) + Stripped(line[1..])
  }

  predicate IsLineEnd(c: char) {
    c == '\r' || c == '\n'
  }

  /** Neither a carriage return nor a line feed. */
  predicate NoLineEnds(line: string) {
    forall i | 0 <= i < |line| :: !IsLineEnd(line[i])
  }

  /** Only line ends are taken away, and all of them: any other character stays as often as it occurs. */
  lemma {:induction false} StrippedIs(line: string)
    ensures NoLineEnds(Stripped(line))
    ensures Stripped(line) == line <==> NoLineEnds(line)
    ensures forall c | !IsLineEnd(c) :: multiset(Stripped(line))[c] == multiset(line)[c]
  {
    if line != "" {
      StrippedIs(line[1..]);
      assert line == [line[0]] + line[1..];
      StrippedShortens(line[1..]);
      assert NoLineEnds(line) <==> !IsLineEnd(line[0]) && NoLineEnds(line[1..]);
    }
  }

  lemma {:induction false} StrippedShortens(line: string)
    ensures |Stripped(line)| <= |line|
  {
    if line != "" {
      StrippedShortens(line[1..]);
    }
  }

  /** What is left is in order. */
  lemma {:induction false} StrippedConcat(a: string, b: string)
    ensures Stripped(a + b) == Stripped(a) + Stripped(b)
  {
    if a == "" {
      assert a + b == b;
    } else {
      assert (a + b)[1..] == a[1..] + b;
      StrippedConcat(a[1..], b);
    }
  }

  ghost predicate ReaderAt(s: State, key: (BuildId, Reader), pc: ReaderPc) {
    key in s.readers && s.readers[key] == pc
  }

  ghost predicate CanReader(s: State, a: ReaderAction) {
    match a
    case TakeLine(b, r, line) => ReaderAt(s, (b, r), Next)
    case ReadMax(b, r) => (b, r) in s.readers && s.readers[(b, r)].Have?
    case InsertLine(b, r, now) =>
      && (b, r) in s.readers && s.readers[(b, r)].AtMax?
      && LogInsertAllowed(s.t, b, s.readers[(b, r)].k)
    case LoseLine(b, r) => (b, r) in s.readers && (s.readers[(b, r)].Have? || s.readers[(b, r)].AtMax?)
    case FanOut(b, r) => ReaderAt(s, (b, r), Stored)
    case Eof(b, r) => ReaderAt(s, (b, r), Next)
  }

  ghost function Produced(s: State, key: (BuildId, Reader)): seq<string> {
    if key in s.h.produced then s.h.produced[key] else []
  }

  ghost function Origins(s: State, b: BuildId): seq<Origin> {
    if b in s.h.origins then s.h.origins[b] else []
  }

  ghost function SetReader(s: State, key: (BuildId, Reader), pc: ReaderPc): State {
    s.(readers := s.readers[key := pc])
  }

  ghost function DoReader(s: State, a: ReaderAction): State
    requires CanReader(s, a)
  {
    match a
    case TakeLine(b, r, line) =>
      SetReader(s, (b, r), Have(line)).(h := s.h.(produced := s.h.produced[(b, r) := Produced(s, (b, r)) + [line]]))
    case ReadMax(b, r) => SetReader(s, (b, r), AtMax(s.readers[(b, r)].line, NextLogSeq(s.t, b)))
    case InsertLine(b, r, now) =>
      var pc := s.readers[(b, r)];
      // Both readers write through one sink, which tags every line as standard output.
      var line := LogLine(Stdout, Stripped(pc.line), now);
      var taken := |Produced(s, (b, r))|;
      SetReader(Write(s, InsertLog(s.t, b, pc.k, line), true), (b, r), Stored).(
        h := s.h.(origins := s.h.origins[b := Origins(s, b) + [Origin(r, if taken == 0 then 0 else taken - 1)]]))
    case LoseLine(b, r) => SetReader(s, (b, r), Next)
    case FanOut(b, r) => SetReader(s, (b, r), Next).(channels := s.channels + {b})
    case Eof(b, r) => SetReader(s, (b, r), Closed)
  }

  // -------- the poller --------

  datatype PollAction =
    | ListPackages(todo: seq<Polled>)
    | ListQueued
    | ListRunning
    | SkipPackage
    | PollRead
    | PollInsert(now: int)
    | PollError

  /** The rows of `packages`, once each, in some order. */
  ghost predicate IsPackageList(t: Tables, todo: seq<Polled>) {
    && (forall i | 0 <= i < |todo| :: todo[i].pkg in t.packages && todo[i].autoRebuild == t.packages[todo[i].pkg].autoRebuild)
    && (forall i, j | 0 <= i < j < |todo| :: todo[i].pkg != todo[j].pkg)
    && (forall p | p in t.packages :: exists i :: 0 <= i < |todo| && todo[i].pkg == p)
  }

  ghost function LivePackages(t: Tables, st: Status): set<PkgId> {
    var rows := ListBuilds(t.builds, st, POLL_LIMIT);
    ListBuildsSpec(t.builds, st, POLL_LIMIT);
    set i | i in rows :: t.builds[i].pkg
  }

  ghost predicate FitsSnapshot(t: Tables, st: Status) {
    |WithStatus(t.builds, st)| <= 1000
  }

  ghost predicate CanPoll(s: State, a: PollAction) {
    match a
    case ListPackages(todo) => s.poller.Sleeping? && IsPackageList(s.t, todo)
    case ListQueued => s.poller.HavePackages?
    case ListRunning => s.poller.HaveQueued?
    case SkipPackage => s.poller.Looping? && s.poller.todo != []
    case PollRead =>
      && s.poller.Looping? && s.poller.todo != []
      && s.poller.todo[0].autoRebuild && s.poller.todo[0].pkg !in s.poller.live
    case PollInsert(now) => s.poller.Enqueuing? && PollTask in s.txs && InsertGoes(s, s.txs[PollTask])
    case PollError => true
  }

  ghost function DoPoll(s: State, a: PollAction): State
    requires CanPoll(s, a)
  {
    match a
    case ListPackages(todo) => s.(poller := HavePackages(todo))
    case ListQueued =>
      s.(poller := HaveQueued(s.poller.todo, LivePackages(s.t, Queued)),
         h := s.h.(pollWhole := s.h.pollWhole && FitsSnapshot(s.t, Queued)))
    case ListRunning =>
      s.(poller := Looping(s.poller.todo, s.poller.live + LivePackages(s.t, Running)),
         h := s.h.(pollWhole := s.h.pollWhole && FitsSnapshot(s.t, Running)))
    case SkipPackage => s.(poller := Looping(s.poller.todo[1..], s.poller.live))
    case PollRead =>
      s.(poller := Enqueuing(s.poller.todo[1..], s.poller.live),
         txs := s.txs[PollTask := EnqueueTx(s.poller.todo[0].pkg, Poll, Default, s.t, s.commits)])
    case PollInsert(now) =>
      Inserted(s, s.txs[PollTask], now).(poller := Looping(s.poller.todo, s.poller.live), txs := s.txs - {PollTask})
    // The end of a pass, or an error that abandons it.
    case PollError => s.(poller := Sleeping, txs := s.txs - {PollTask})
  }

  // -------- steps and runs --------

  datatype Action =
    | Boot(boot: BootAction)
    | Api(api: ApiAction)
    | Work(work: WorkerAction)
    | Read(read: ReaderAction)
    | Polling(poll: PollAction)

  ghost predicate Can(s: State, a: Action) {
    match a
    case Boot(x) => CanBoot(s, x)
    case Api(x) => CanApi(s, x)
    case Work(x) => CanWorker(s, x)
    case Read(x) => CanReader(s, x)
    case Polling(x) => CanPoll(s, x)
  }

  ghost function Do(s: State, a: Action): State
    requires Can(s, a)
  {
    match a
    case Boot(x) => DoBoot(s, x)
    case Api(x) => DoApi(s, x)
    case Work(x) => DoWorker(s, x)
    case Read(x) => DoReader(s, x)
    case Polling(x) => DoPoll(s, x)
  }

  ghost predicate Step(s: State, s': State) {
    exists a :: Can(s, a) && s' == Do(s, a)
  }

  ghost predicate StepAt(run: seq<State>, i: nat) {
    i + 1 < |run| && Step(run[i], run[i + 1])
  }

  /** A finite run of the daemon from a fresh database, through any number of crashes. */
  ghost predicate IsRun(run: seq<State>) {
    && |run| > 0 && run[0] == INITIAL
    && forall i: nat | i < |run| - 1 :: StepAt(run, i)
  }
}
