/** Recovery to the end: the start-up of the daemon, carried through until nothing is left to do. */
module Recovery {
  import opened Options
  import opened Variants
  import opened Schema
  import opened Protocol
  import opened Invariants
  import opened Theorems

  lemma OneMoreStep(run: seq<State>, a: Action) returns (longer: seq<State>)
    requires IsRun(run) && Can(run[|run| - 1], a)
    ensures longer == run + [Do(run[|run| - 1], a)] && IsRun(longer)
  {
    var next := Do(run[|run| - 1], a);
    longer := run + [next];
    forall i: nat | i < |longer| - 1
      ensures StepAt(longer, i)
    {
      assert Step(run[|run| - 1], next);
      if i < |run| - 1 {
        assert StepAt(run, i);
      }
    }
  }

  /** How far a reader is from the end of its line and its stream. */
  function PcRank(pc: ReaderPc): nat {
    match pc
    case Closed => 0
    case Next => 1
    case Stored => 2
    case AtMax(line, k) => 3
    case Have(line) => 4
  }

  ghost function KeyRank(s: State, b: BuildId, r: Reader): nat {
    if (b, r) in s.readers then PcRank(s.readers[(b, r)]) else 0
  }

  /** How far the readers of the worker's build are from the end. */
  ghost function ReaderRank(s: State): nat {
    if s.worker.Busy? then KeyRank(s, s.worker.b, OutReader) + KeyRank(s, s.worker.b, ErrReader) else 0
  }

  /** The builds that have returned an error, and the one that can do nothing else. */
  ghost function Failing(s: State): set<BuildId> {
    s.h.errored + if PackageGone(s) then {s.worker.b} else {}
  }

  /** An internal action changes no more than this. */
  ghost predicate Calm(s: State, s': State) {
    && s'.phase == s.phase
    && s'.t.builds.Keys == s.t.builds.Keys
    && s'.t.packages == s.t.packages
    && Failing(s') == Failing(s)
    && s'.h.scanWhole == s.h.scanWhole
    && (s.scan.Sending? || s.scan.Scanned? ==> s'.scan.Sending? || s'.scan.Scanned?)
  }

  lemma InternalIsCalm(s: State, a: Action)
    requires TablesOk(s.t) && Can(s, a) && IsInternal(s, a)
    ensures Calm(s, Do(s, a))
  {
    match a
    case Boot(x) =>
    case Read(x) =>
    case Work(x) => WorkIsCalm(s, x);
  }

  /** The worker claims only builds of stored packages, and gives up on no other one. */
  lemma FailingStays(s: State, a: WorkerAction)
    requires TablesOk(s.t) && CanWorker(s, a) && IsInternal(s, Work(a))
    ensures Failing(DoWorker(s, a)) == Failing(s)
  {
  }

  lemma RowsStay(s: State, a: WorkerAction)
    requires CanWorker(s, a)
    ensures DoWorker(s, a).t.builds.Keys == s.t.builds.Keys && DoWorker(s, a).t.packages == s.t.packages
  {
  }

  lemma WorkIsCalm(s: State, a: WorkerAction)
    requires TablesOk(s.t) && CanWorker(s, a) && IsInternal(s, Work(a))
    ensures Calm(s, DoWorker(s, a))
  {
    FailingStays(s, a);
    RowsStay(s, a);
  }

  /** Every internal action brings the end closer. */
  lemma InternalUsesUp(s: State, a: Action)
    requires Can(s, a) && IsInternal(s, a)
    ensures var s' := Do(s, a);
            Remaining(s') < Remaining(s) || (Remaining(s') == Remaining(s) && ReaderRank(s') < ReaderRank(s))
  {
    match a
    case Boot(x) => WorkIsUsedUp(s, a);
    case Work(x) => WorkIsUsedUp(s, a);
    case Read(x) =>
      assert x.r == OutReader || x.r == ErrReader;
  }

  /** Step `k` of the run is one that the daemon takes by itself. */
  ghost predicate InternalAt(run: seq<State>, k: nat) {
    k + 1 < |run| && exists a :: Can(run[k], a) && IsInternal(run[k], a) && run[k + 1] == Do(run[k], a)
  }

  /** All steps from state `lo` to the end of the run. */
  ghost predicate ByItself(run: seq<State>, lo: nat) {
    forall k: nat | lo <= k < |run| - 1 :: InternalAt(run, k)
  }

  lemma OneEarlier(run: seq<State>, longer: seq<State>, lo: nat)
    requires |run| == lo + 2 && run <= longer
    requires InternalAt(run, lo) && ByItself(longer, lo + 1)
    ensures ByItself(longer, lo)
  {
    assert longer[lo] == run[lo] && longer[lo + 1] == run[lo + 1];
    assert InternalAt(longer, lo);
  }

  lemma OneInternalStep(run: seq<State>) returns (longer: seq<State>)
    requires IsRun(run) && run[|run| - 1].phase.Serving? && Remaining(run[|run| - 1]) > 0
    ensures IsRun(longer) && |longer| == |run| + 1 && run <= longer && InternalAt(longer, |run| - 1)
    ensures var s, s' := run[|run| - 1], longer[|run|];
            && Calm(s, s')
            && (Remaining(s') < Remaining(s) || (Remaining(s') == Remaining(s) && ReaderRank(s') < ReaderRank(s)))
  {
    var last := run[|run| - 1];
    var a := NeverStuck(run, |run| - 1);
    longer := OneMoreStep(run, a);
    InvHolds(run, |run| - 1);
    InternalIsCalm(last, a);
    InternalUsesUp(last, a);
  }

  /**
   From any serving state the daemon comes to rest by itself, once containers end and their output
   ends. The only build it returns an error for on the way is one that was already claimed when
   its package was deleted.
   */
  lemma {:induction false} ComesToRest(run: seq<State>) returns (longer: seq<State>)
    requires IsRun(run) && run[|run| - 1].phase.Serving?
    ensures IsRun(longer) && run <= longer
    ensures Calm(run[|run| - 1], longer[|longer| - 1]) && Remaining(longer[|longer| - 1]) == 0
    ensures longer[|longer| - 1].h.errored == Failing(run[|run| - 1])
    ensures forall k | |run| <= k < |longer| :: longer[k].phase.Serving?
    ensures ByItself(longer, |run| - 1)
    decreases Remaining(run[|run| - 1]), ReaderRank(run[|run| - 1])
  {
    if Remaining(run[|run| - 1]) == 0 {
      longer := run;
      AtRest(run);
    } else {
      var more := OneInternalStep(run);
      longer := ComesToRest(more);
      OneEarlier(more, longer, |run| - 1);
    }
  }

  /** No build is queued or running. */
  predicate NothingLives(builds: Builds) {
    forall b | b in builds :: !builds[b].status.Live()
  }

  lemma JustStarted(run: seq<State>)
    requires IsRun(run) && run[|run| - 1].phase.Starting?
    ensures run[|run| - 1].scan.NotScanned? && run[|run| - 1].h.errored == {}
  {
    InvHolds(run, |run| - 1);
  }

  /** Reap, start of the worker, and the scan's read, from a state that has just started. */
  lemma StartsUp(run: seq<State>, now: int) returns (longer: seq<State>)
    requires IsRun(run) && run[|run| - 1].phase.Starting?
    ensures IsRun(longer) && |longer| == |run| + 3 && run <= longer
    ensures var s, s' := run[|run| - 1], longer[|longer| - 1];
            && s'.phase.Serving? && s'.scan.Sending? && s'.worker.Idle?
            && s'.t.builds.Keys == s.t.builds.Keys && s'.h.errored == s.h.errored
            && s'.h.scanWhole == (|WithStatus(s.t.builds, Queued)| <= 10000)
    ensures forall k | |run| <= k < |longer| :: !longer[k].phase.Starting?
  {
    var s := run[|run| - 1];
    JustStarted(run);
    longer := OneMoreStep(run, Boot(ReapStale(now)));
    assert WithStatus(Reap(s.t, now).builds, Queued) == WithStatus(s.t.builds, Queued);
    longer := OneMoreStep(longer, Boot(StartWorker));
    longer := OneMoreStep(longer, Boot(ReadQueue));
  }

  /**
   From every reachable state in which the daemon has just started, with at most 10,000 queued
   builds, it recovers completely by itself: after the three steps of its start it comes to a state
   in which the scan is done, the worker is idle with nothing to receive, and no build is queued or
   running, without another crash and without an error.
   */
  lemma RecoversCompletely(run: seq<State>, now: int) returns (longer: seq<State>)
    requires IsRun(run) && run[|run| - 1].phase.Starting?
    requires |WithStatus(run[|run| - 1].t.builds, Queued)| <= 10000
    ensures IsRun(longer) && run <= longer && NoRestart(longer, |run| - 1, |longer| - 1)
    ensures ByItself(longer, |run| + 2)
    ensures var end := longer[|longer| - 1];
            && Rests(end) && end.h.errored == {}
            && end.t.builds.Keys == run[|run| - 1].t.builds.Keys
            && NothingLives(end.t.builds)
  {
    var c := |run| - 1;
    JustStarted(run);
    var started := StartsUp(run, now);
    longer := ComesToRest(started);
    AtRest(longer);
    assert longer[c] == run[c];
    AllHaveEnded(longer, c);
  }

  lemma AllHaveEnded(run: seq<State>, c: nat)
    requires IsRun(run) && c < |run| && NoRestart(run, c, |run| - 1) && run[c].phase.Starting?
    requires var end := run[|run| - 1];
             && Rests(end) && end.h.scanWhole
             && end.t.builds.Keys == run[c].t.builds.Keys && end.h.errored == {}
    ensures NothingLives(run[|run| - 1].t.builds)
  {
    var builds := run[|run| - 1].t.builds;
    forall b | b in builds
      ensures !builds[b].status.Live()
    {
      CrashRecoveryDrains(run, c, |run| - 1, b);
    }
  }

  lemma AtRest(run: seq<State>)
    requires IsRun(run) && run[|run| - 1].phase.Serving? && Remaining(run[|run| - 1]) == 0
    ensures var s := run[|run| - 1]; s.worker.Idle? && s.wake == multiset{} && !s.scan.Sending?
  {
    InvHolds(run, |run| - 1);
  }
}
