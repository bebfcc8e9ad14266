/** Which granted cancels stand, told at the moment the cancel request is answered. */
module Cancellation {
  import opened Options
  import opened Variants
  import opened Schema
  import opened Protocol
  import opened Invariants
  import opened Theorems
  import opened Recovery
  import opened Refinement

  predicate IsCancelled(t: Tables, id: BuildId) {
    id in t.builds && t.builds[id].status.Cancelled?
  }

  /** In every continuation the build stays unpublished and its row, while it exists, cancelled. */
  ghost predicate Stands(s: State, b: BuildId) {
    forall acts, s' :: Path(s, acts, s') ==> b !in s'.h.published && (b in s'.t.builds ==> s'.t.builds[b].status.Cancelled?)
  }

  /** The worker holds the build, and has not registered its token yet or has seen the container exit by itself. */
  predicate Overwritable(s: State, b: BuildId) {
    && Holds(s, b)
    && match s.worker.at
       case Claimed(p) => true
       case PackageFound => true
       case Exited(out) => !out.cancelled
       case Drained(out) => !out.cancelled
       case Unregistered(out) => !out.cancelled
       case _ => false
  }

  // -------- it stands --------

  /** Where the worker can be with a build that it will not stamp as anything but cancelled. */
  predicate SafeStage(at: Stage, fired: bool) {
    match at
    case Claimed(p) => false
    case PackageFound => false
    case Registered => fired
    case Inside => fired
    case Exited(out) => out.cancelled
    case Drained(out) => out.cancelled
    case Unregistered(out) => out.cancelled
    case Stamped(out) => out.cancelled
    case Published => false
    case Cleaning => true
  }

  ghost predicate Safe(s: State, b: BuildId) {
    && b < s.t.nextBuildId
    && b !in s.h.published
    && (b in s.t.builds ==> s.t.builds[b].status.Cancelled?)
    && (Holds(s, b) ==> SafeStage(s.worker.at, b in s.fired))
  }

  lemma SafeWork(s: State, a: WorkerAction, b: BuildId)
    requires Safe(s, b) && CanWorker(s, a)
    ensures Safe(DoWorker(s, a), b)
  {
  }

  lemma SafeApi(s: State, a: ApiAction, b: BuildId)
    requires Safe(s, b) && CanApi(s, a)
    ensures Safe(DoApi(s, a), b)
  {
  }

  lemma SafeStep(s: State, a: Action, b: BuildId)
    requires Safe(s, b) && Can(s, a)
    ensures Safe(Do(s, a), b)
  {
    match a
    case Boot(x) => assert Safe(DoBoot(s, x), b);
    case Api(x) => SafeApi(s, x, b);
    case Work(x) => SafeWork(s, x, b);
    case Read(x) => assert Safe(DoReader(s, x), b);
    case Polling(x) => assert Safe(DoPoll(s, x), b);
  }

  lemma {:induction false} StaysSafe(s: State, acts: seq<Action>, s': State, b: BuildId)
    requires Safe(s, b) && Path(s, acts, s')
    ensures Safe(s', b)
    decreases |acts|
  {
    if acts != [] {
      SafeStep(s, acts[0], b);
      StaysSafe(Do(s, acts[0]), acts[1..], s', b);
    }
  }

  lemma SafeStands(s: State, b: BuildId)
    requires Safe(s, b)
    ensures Stands(s, b)
  {
    forall acts, s' | Path(s, acts, s')
      ensures b !in s'.h.published && (b in s'.t.builds ==> s'.t.builds[b].status.Cancelled?)
    {
      StaysSafe(s, acts, s', b);
    }
  }

  /** What the cancel request leaves behind is safe, unless the worker is in one of the two windows. */
  lemma SafeOnceFired(m: State, b: BuildId)
    requires Inv(m) && b in m.cancelling
    requires IsCancelled(m.t, b)
    requires !Overwritable(m, b)
    ensures Safe(DoApi(m, FireToken(b)), b)
  {
  }

  // -------- it is overwritten --------

  /** An open reader gets to its end without a failure and without touching a build's row. */
  lemma {:induction false} ReaderEnds(s: State, id: BuildId, m: State, r: Reader) returns (m': State)
    requires Leads(s, id, m) && Holds(m, id)
    ensures Leads(s, id, m') && m'.worker == m.worker && m'.t.builds == m.t.builds && m'.cancelling == m.cancelling
    ensures (id, r) in m'.readers ==> m'.readers[(id, r)].Closed?
    ensures forall q: Reader | q != r && (id, q) in m'.readers :: (id, q) in m.readers && m'.readers[(id, q)] == m.readers[(id, q)]
    decreases KeyRank(m, id, r)
  {
    if (id, r) !in m.readers || m.readers[(id, r)].Closed? {
      m' := m;
    } else {
      var next := Then(s, id, m, Read(ReaderCanMove(m, id, r)));
      m' := ReaderEnds(s, id, next, r);
    }
  }

  lemma ReadersEnd(s: State, id: BuildId, m: State, out: Outcome) returns (m': State)
    requires Leads(s, id, m) && m.worker == Busy(id, Exited(out))
    ensures Leads(s, id, m') && m'.worker == Busy(id, Drained(out)) && m'.t.builds == m.t.builds && m'.cancelling == m.cancelling
  {
    m' := ReaderEnds(s, id, m, OutReader);
    m' := ReaderEnds(s, id, m', ErrReader);
    forall r: Reader
      ensures (id, r) in m'.readers ==> m'.readers[(id, r)].Closed?
    {
      assert r == OutReader || r == ErrReader;
    }
    m' := Then(s, id, m', Work(JoinReaders));
  }

  /** After the container's own exit the worker goes on to stamp its result over the cancel. */
  lemma StampedOver(s: State, id: BuildId, m: State, out: Outcome) returns (m': State)
    requires Leads(s, id, m) && !out.cancelled && id in m.t.builds
    requires m.worker == Busy(id, Exited(out)) || m.worker == Busy(id, Drained(out)) || m.worker == Busy(id, Unregistered(out))
    ensures Leads(s, id, m') && id in m'.t.builds && !m'.t.builds[id].status.Cancelled?
  {
    m' := m;
    if m'.worker.at.Exited? {
      m' := ReadersEnd(s, id, m', out);
    }
    if m'.worker.at.Drained? {
      m' := Then(s, id, m', Work(RemoveToken));
    }
    m' := Then(s, id, m', Work(Stamp(0)));
  }

  /** Before the token is registered the build runs as if nothing had happened. */
  lemma BuiltAnyway(s: State, id: BuildId, m: State) returns (m': State)
    requires Leads(s, id, m) && Holds(m, id) && id in m.t.builds && id !in m.fired
    requires m.worker.at.PackageFound? || (m.worker.at.Claimed? && m.worker.at.pkg in m.t.packages)
    ensures Leads(s, id, m') && id in m'.t.builds && !m'.t.builds[id].status.Cancelled?
  {
    m' := m;
    if m'.worker.at.Claimed? {
      m' := Then(s, id, m', Work(FindPackage));
    }
    m' := Then(s, id, m', Work(RegisterToken));
    m' := SucceedsAnyway(s, id, m', "", "", 0);
  }

  lemma Refuted(s: State, b: BuildId, s': State)
    requires Leads(s, b, s') && b in s'.t.builds && !s'.t.builds[b].status.Cancelled?
    ensures !Stands(s, b)
  {
    var acts :| Path(s, acts, s') && forall i | 0 <= i < |acts| :: About(acts[i], b);
  }

  /** In the first window the token is not there to be fired, and the package is. */
  lemma NothingToFire(m: State, b: BuildId)
    requires Inv(m) && b in m.cancelling && b in m.t.builds && Holds(m, b)
    requires m.worker.at.Claimed? || m.worker.at.PackageFound?
    ensures b !in DoApi(m, FireToken(b)).fired
    ensures m.worker.at.Claimed? ==> m.worker.at.pkg in m.t.packages
  {
  }

  lemma IsOverwritten(m: State, b: BuildId)
    requires Inv(m) && b in m.cancelling && b in m.t.builds && Overwritable(m, b)
    ensures !Stands(DoApi(m, FireToken(b)), b)
  {
    var s := DoApi(m, FireToken(b));
    Start(s, b);
    var end: State;
    if s.worker.at.Claimed? || s.worker.at.PackageFound? {
      NothingToFire(m, b);
      end := BuiltAnyway(s, b, s);
    } else {
      end := StampedOver(s, b, s, s.worker.at.out);
    }
    Refuted(s, b, end);
  }

  /**
   Let `m` be any reachable state in which a cancel request was granted and is about to fire the
   token. Once it has, the cancel stands in every continuation exactly when the row is still
   cancelled and the worker does not hold the build, or holds it between the insert of its token
   and the container's exit, or after the token has won.
   */
  lemma GrantedCancelStands(m: State, b: BuildId)
    requires Inv(m) && b in m.cancelling && b in m.t.builds
    ensures var s := DoApi(m, FireToken(b)); Stands(s, b) <==> IsCancelled(s.t, b) && !Overwritable(s, b)
    ensures var s := DoApi(m, FireToken(b)); b !in s.tokens && b !in s.cancelling && (b in m.tokens ==> b in s.fired)
  {
    var s := DoApi(m, FireToken(b));
    if !IsCancelled(s.t, b) {
      assert Path(s, [], s);
    } else if Overwritable(m, b) {
      IsOverwritten(m, b);
    } else {
      SafeOnceFired(m, b);
      SafeStands(s, b);
    }
  }

  /** Both windows occur: every build that is taken from the queue can be cancelled in either. */
  lemma CancelledTooEarly(s: State, id: BuildId, now: int) returns (m: State)
    requires s.worker == Woken(id) && IsQueued(s.t, id)
    ensures Leads(s, id, m) && id in m.cancelling && IsCancelled(m.t, id) && Overwritable(m, id) && m.worker.at.Claimed?
  {
    Start(s, id);
    var claimed := Then(s, id, s, Work(ClaimBuild(now)));
    m := CancelRowNow(s, id, claimed, now);
  }

  lemma CancelledTooLate(s: State, id: BuildId, now: int) returns (m: State)
    requires s.worker == Woken(id) && IsQueued(s.t, id) && s.t.builds[id].pkg in s.t.packages && id !in s.fired
    ensures Leads(s, id, m) && id in m.cancelling && IsCancelled(m.t, id) && Overwritable(m, id)
    ensures m.worker == Busy(id, Exited(Outcome(false, 0)))
  {
    var running := UpToToken(s, id, now);
    running := Then(s, id, running, Work(Spawn));
    running := Then(s, id, running, Work(SelectExit(0)));
    m := CancelRowNow(s, id, running, now);
  }

  /** A granted cancel can also be undone by the time it is answered: stamped and published before the token. */
  lemma StampedBeforeFired(s: State, id: BuildId, now: int) returns (m: State)
    requires s.worker == Woken(id) && IsQueued(s.t, id) && s.t.builds[id].pkg in s.t.packages && id !in s.fired
    ensures Leads(s, id, m) && id in m.cancelling && !Holds(m, id)
    ensures id in m.t.builds && m.t.builds[id].status == Success && id in m.h.published
  {
    m := CancelledTooLate(s, id, now);
    m := ReadersEnd(s, id, m, Outcome(false, 0));
    m := StampedAndPublished(s, id, m, now);
  }

  lemma StampedAndPublished(s: State, id: BuildId, m: State, now: int) returns (m': State)
    requires Leads(s, id, m) && m.worker == Busy(id, Drained(Outcome(false, 0))) && id in m.cancelling && id in m.t.builds
    ensures Leads(s, id, m') && id in m'.cancelling && m'.worker.Idle?
    ensures id in m'.t.builds && m'.t.builds[id].status == Success && id in m'.h.published
  {
    m' := Then(s, id, m, Work(RemoveToken));
    m' := Then(s, id, m', Work(Stamp(now)));
    m' := PublishedAndDone(s, id, m');
  }

  lemma PublishedAndDone(s: State, id: BuildId, m: State) returns (m': State)
    requires Leads(s, id, m) && m.worker == Busy(id, Stamped(Outcome(false, 0)))
    ensures Leads(s, id, m') && m'.worker.Idle? && m'.cancelling == m.cancelling && m'.t == m.t && id in m'.h.published
  {
    m' := Then(s, id, m, Work(Publish(true)));
    m' := Then(s, id, m', Work(SkipRecord));
    m' := Then(s, id, m', Work(DropChannel));
  }

  lemma CancelRowNow(s: State, id: BuildId, m: State, now: int) returns (m': State)
    requires Leads(s, id, m) && id in m.t.builds && m.t.builds[id].status.Running?
    ensures Leads(s, id, m') && m'.worker == m.worker && id in m'.cancelling && IsCancelled(m'.t, id)
  {
    m' := Then(s, id, m, Api(CancelRow(id, now)));
  }
}
