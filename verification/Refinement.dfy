/**
 The worker of `Daemon`, which handles a build without interruption, is one of the ways the
 interleaved `Protocol` can go; and some other ways lose a cancel that was granted.
 */
module Refinement {
  import opened Options
  import opened Variants
  import opened Schema
  import opened Protocol
  import opened Invariants
  import opened Daemon
  import opened Recovery

  // -------- sequences of actions --------

  /** The actions `acts`, one after the other, lead from `s` to `s'`. */
  ghost predicate Path(s: State, acts: seq<Action>, s': State)
    decreases |acts|
  {
    if acts == [] then s == s'
    else Can(s, acts[0]) && Path(Do(s, acts[0]), acts[1..], s')
  }

  lemma {:induction false} Longer(s: State, acts: seq<Action>, m: State, a: Action) returns (m': State)
    requires Path(s, acts, m) && Can(m, a)
    ensures m' == Do(m, a) && Path(s, acts + [a], m')
    decreases |acts|
  {
    m' := Do(m, a);
    if acts == [] {
      assert [a][1..] == [];
    } else {
      var end := Longer(Do(s, acts[0]), acts[1..], m, a);
      assert (acts + [a])[1..] == acts[1..] + [a];
    }
  }

  /** What is reached from a run is on a run. */
  lemma {:induction false} PathExtendsRun(run: seq<State>, acts: seq<Action>, s': State) returns (longer: seq<State>)
    requires IsRun(run) && Path(run[|run| - 1], acts, s')
    ensures IsRun(longer) && |longer| == |run| + |acts| && run <= longer && longer[|longer| - 1] == s'
    decreases |acts|
  {
    if acts == [] {
      longer := run;
    } else {
      var more := OneMoreStep(run, acts[0]);
      longer := PathExtendsRun(more, acts[1..], s');
    }
  }

  ghost predicate Reachable(s: State) {
    exists acts :: Path(INITIAL, acts, s)
  }

  lemma Go(s: State, a: Action) returns (s': State)
    requires Reachable(s) && Can(s, a)
    ensures s' == Do(s, a) && Reachable(s')
  {
    var acts :| Path(INITIAL, acts, s);
    s' := Longer(INITIAL, acts, s, a);
  }

  lemma {:induction false} GoAlong(s: State, acts: seq<Action>, s': State)
    requires Reachable(s) && Path(s, acts, s')
    ensures Reachable(s')
    decreases |acts|
  {
    if acts != [] {
      var next := Go(s, acts[0]);
      GoAlong(next, acts[1..], s');
    }
  }

  /** Being reachable is being the end of a run. */
  lemma ReachableOnARun(s: State) returns (run: seq<State>)
    requires Reachable(s)
    ensures IsRun(run) && run[|run| - 1] == s
  {
    var acts :| Path(INITIAL, acts, s);
    run := PathExtendsRun([INITIAL], acts, s);
  }

  lemma ReachableInv(s: State)
    requires Reachable(s)
    ensures Inv(s)
  {
    var run := ReachableOnARun(s);
    InvHolds(run, |run| - 1);
  }

  /** The worker's own actions, those of its two readers, and a cancel request, all for one build. */
  predicate About(a: Action, id: BuildId) {
    match a
    case Work(x) => !x.Receive?
    case Read(x) => x.b == id
    case Api(x) => (x.CancelRow? && x.id == id) || (x.FireToken? && x.id == id)
    case _ => false
  }

  ghost predicate Leads(s: State, id: BuildId, s': State) {
    exists acts :: Path(s, acts, s') && forall i | 0 <= i < |acts| :: About(acts[i], id)
  }

  lemma Start(s: State, id: BuildId)
    ensures Leads(s, id, s)
  {
    assert Path(s, [], s);
  }

  lemma Then(s: State, id: BuildId, m: State, a: Action) returns (m': State)
    requires Leads(s, id, m) && Can(m, a) && About(a, id)
    ensures m' == Do(m, a) && Leads(s, id, m')
  {
    var acts :| Path(s, acts, m) && forall i | 0 <= i < |acts| :: About(acts[i], id);
    m' := Longer(s, acts, m, a);
  }

  // -------- the sequential worker --------

  /** The worker is at a stage of build `id`, and the shared state is as given. */
  predicate Here(s: State, id: BuildId, at: Stage, t: Tables, tokens: set<BuildId>, channels: set<BuildId>) {
    s.worker == Busy(id, at) && s.t == t && s.tokens == tokens && s.channels == channels
  }

  lemma UpToToken(s: State, id: BuildId, now: int) returns (m: State)
    requires s.worker == Woken(id) && IsQueued(s.t, id) && s.t.builds[id].pkg in s.t.packages
    ensures Leads(s, id, m)
    ensures Here(m, id, Registered, Claim(s.t, id, WORKER_ID, now), s.tokens + {id}, s.channels) && m.fired == s.fired
  {
    Start(s, id);
    m := Then(s, id, s, Work(ClaimBuild(now)));
    m := Then(s, id, m, Work(FindPackage));
    m := Then(s, id, m, Work(RegisterToken));
  }

  /** Both readers wait for the next line. */
  ghost predicate ReadersReady(s: State, id: BuildId) {
    ReaderAt(s, (id, OutReader), Next) && ReaderAt(s, (id, ErrReader), Next)
  }

  lemma OneLine(s: State, id: BuildId, m: State, line: string, now: int) returns (m': State)
    requires Leads(s, id, m)
    requires m.worker == Busy(id, Inside) && id in m.t.logs && ReadersReady(m, id)
    ensures Leads(s, id, m')
    ensures Here(m', id, Inside, InsertLog(m.t, id, NextLogSeq(m.t, id), LogLine(Stdout, Stripped(line), now)), m.tokens, m.channels + {id})
    ensures ReadersReady(m', id) && m'.fired == m.fired
  {
    m' := Then(s, id, m, Read(TakeLine(id, OutReader, line)));
    m' := Then(s, id, m', Read(ReadMax(id, OutReader)));
    m' := Then(s, id, m', Read(InsertLine(id, OutReader, now)));
    m' := Then(s, id, m', Read(FanOut(id, OutReader)));
  }

  lemma {:induction false} AllLines(s: State, id: BuildId, m: State, lines: seq<string>, now: int) returns (m': State)
    requires Leads(s, id, m) && TablesOk(m.t)
    requires m.worker == Busy(id, Inside) && id in m.t.logs && ReadersReady(m, id)
    ensures Leads(s, id, m')
    ensures Here(m', id, Inside, Logged(m.t, id, lines, now), m.tokens, m.channels + if lines == [] then {} else {id})
    ensures ReadersReady(m', id) && m'.fired == m.fired
    decreases |lines|
  {
    if lines == [] {
      m' := m;
    } else {
      var front := lines[..|lines| - 1];
      LoggedFacts(m.t, id, front, now);
      var mid := AllLines(s, id, m, front, now);
      m' := OneLine(s, id, mid, lines[|lines| - 1], now);
    }
  }

  /** The container ends: by itself, or because a cancel request fired the token. */
  lemma ContainerEnds(s: State, id: BuildId, m: State, out: Outcome, now: int) returns (m': State)
    requires Leads(s, id, m)
    requires m.worker == Busy(id, Inside) && id in m.tokens && id !in m.fired
    requires id in m.t.builds && m.t.builds[id].status.Running?
    requires ReadersReady(m, id)
    ensures Leads(s, id, m') && m'.worker == Busy(id, Exited(out))
    ensures m'.t == (if out.cancelled then Cancel(m.t, id, now) else m.t)
    ensures m'.tokens == (if out.cancelled then m.tokens - {id} else m.tokens) && m'.channels == m.channels
    ensures ReadersReady(m', id)
  {
    if out.cancelled {
      m' := Then(s, id, m, Api(CancelRow(id, now)));
      m' := Then(s, id, m', Api(FireToken(id)));
      m' := Then(s, id, m', Work(SelectCancel(out.code)));
    } else {
      m' := Then(s, id, m, Work(SelectExit(out.code)));
    }
  }

  lemma OutputEnds(s: State, id: BuildId, m: State, out: Outcome) returns (m': State)
    requires Leads(s, id, m)
    requires m.worker == Busy(id, Exited(out)) && ReadersReady(m, id)
    ensures Leads(s, id, m') && Here(m', id, Drained(out), m.t, m.tokens, m.channels) && m'.h.cancelOk == m.h.cancelOk
  {
    m' := Then(s, id, m, Read(Eof(id, OutReader)));
    m' := Then(s, id, m', Read(Eof(id, ErrReader)));
    forall r: Reader
      ensures (id, r) in m'.readers ==> m'.readers[(id, r)].Closed?
    {
      assert r == OutReader || r == ErrReader;
    }
    m' := Then(s, id, m', Work(JoinReaders));
  }

  lemma StampsResult(s: State, id: BuildId, m: State, out: Outcome, now: int) returns (m': State)
    requires Leads(s, id, m) && m.worker == Busy(id, Drained(out))
    ensures Leads(s, id, m')
    ensures Here(m', id, Stamped(out), Finish(m.t, id, FinalStatus(out), FinalExitCode(out), now), m.tokens - {id}, m.channels)
    ensures m'.h.cancelOk == m.h.cancelOk
  {
    m' := Then(s, id, m, Work(RemoveToken));
    m' := Then(s, id, m', Work(Stamp(now)));
  }

  lemma PublishesResult(s: State, id: BuildId, m: State, out: Outcome, pub: Publication) returns (m': State)
    requires Leads(s, id, m) && m.worker == Busy(id, Stamped(out))
    ensures Leads(s, id, m')
    ensures var t := if FinalStatus(out).Success? && pub.Named? then Record(m.t, id, pub.file, pub.version) else m.t;
            Here(m', id, Cleaning, t, m.tokens, m.channels)
    ensures FinalStatus(out).Success? && !pub.Unpublished? ==> id in m'.h.published
    ensures m'.h.cancelOk == m.h.cancelOk
  {
    if FinalStatus(out).Success? {
      m' := Then(s, id, m, Work(Publish(!pub.Unpublished?)));
      if pub.Named? {
        m' := Then(s, id, m', Work(RecordFile(pub.file, pub.version)));
      } else if pub.Unnamed? {
        m' := Then(s, id, m', Work(SkipRecord));
      }
    } else {
      m' := Then(s, id, m, Work(SkipPublish));
    }
  }

  lemma WrapUp(s: State, id: BuildId, m: State, out: Outcome, pub: Publication, now: int) returns (m': State)
    requires Leads(s, id, m)
    requires m.worker == Busy(id, Drained(out))
    ensures Leads(s, id, m') && m'.worker.Idle?
    ensures m'.t == Concluded(m.t, id, out, pub, now) && m'.tokens == m.tokens - {id} && m'.channels == m.channels - {id}
    ensures FinalStatus(out).Success? && !pub.Unpublished? ==> id in m'.h.published
    ensures m'.h.cancelOk == m.h.cancelOk
  {
    m' := StampsResult(s, id, m, out, now);
    m' := PublishesResult(s, id, m', out, pub);
    m' := Then(s, id, m', Work(DropChannel));
  }

  /** `finish_build` hides whether the row was cancelled before. */
  lemma FinishAfterCancel(t: Tables, id: BuildId, out: Outcome, pub: Publication, now: int)
    requires id in t.builds && t.builds[id].status.Running? && out.cancelled
    ensures Concluded(Cancel(t, id, now), id, out, pub, now) == Concluded(t, id, out, pub, now)
  {
    var a := Concluded(Cancel(t, id, now), id, out, pub, now);
    var b := Concluded(t, id, out, pub, now);
    assert a.builds == b.builds;
  }

  lemma NotYetFired(s: State, id: BuildId)
    requires Inv(s) && IsQueued(s.t, id)
    ensures id !in s.fired && id !in s.tokens && s.t.builds[id].pkg in s.t.packages
  {
  }

  /**
   Whatever the container and the publication do, `Daemon.AppState.ProcessOne` is a path of the
   protocol: from every state that satisfies the invariants with the worker holding a queued
   build, actions about that build alone lead to an idle worker and to exactly the tables,
   tokens and channels of the sequential method.
   */
  lemma ProcessOneIsAPath(s: State, id: BuildId, run: ContainerRun, pub: Publication, now: int) returns (s': State)
    requires Inv(s) && s.worker == Woken(id) && IsQueued(s.t, id)
    ensures Leads(s, id, s') && s'.worker.Idle?
    ensures s'.t == AfterBuild(s.t, id, run, pub, now)
    ensures Completes(run) ==> s'.tokens == s.tokens - {id} && s'.channels == s.channels - {id}
  {
    NotYetFired(s, id);
    s' := FromWoken(s, id, run, pub, now);
  }

  lemma FromWoken(s: State, id: BuildId, run: ContainerRun, pub: Publication, now: int) returns (s': State)
    requires s.worker == Woken(id) && IsQueued(s.t, id) && TablesOk(s.t) && id !in s.fired
    ensures Leads(s, id, s') && s'.worker.Idle?
    ensures s'.t == AfterBuild(s.t, id, run, pub, now)
    ensures Completes(run) ==> s'.tokens == s.tokens - {id} && s'.channels == s.channels - {id}
  {
    var m := UpToToken(s, id, now);
    UpdateKeepsOk(s.t, id, m.t.builds[id]);
    s' := AfterToken(s, id, m, run, pub, now);
  }

  lemma AfterToken(s: State, id: BuildId, m: State, run: ContainerRun, pub: Publication, now: int) returns (s': State)
    requires Leads(s, id, m) && TablesOk(m.t)
    requires m.worker == Busy(id, Registered) && id in m.tokens && id !in m.fired
    requires id in m.t.builds && m.t.builds[id].status.Running?
    ensures Leads(s, id, s') && s'.worker.Idle?
    ensures s'.t == AfterClaim(m.t, id, run, pub, now)
    ensures Completes(run) ==> s'.tokens == m.tokens - {id} && s'.channels == m.channels - {id}
  {
    if run.Refused? {
      s' := Then(s, id, m, Work(ReturnError));
    } else {
      s' := WithContainer(s, id, m, run, pub, now);
    }
  }

  lemma WithContainer(s: State, id: BuildId, m: State, run: ContainerRun, pub: Publication, now: int) returns (s': State)
    requires Leads(s, id, m) && run.Ran? && TablesOk(m.t)
    requires m.worker == Busy(id, Registered) && id in m.tokens && id !in m.fired
    requires id in m.t.builds && m.t.builds[id].status.Running?
    ensures Leads(s, id, s') && s'.worker.Idle?
    ensures s'.t == AfterClaim(m.t, id, run, pub, now)
    ensures Completes(run) ==> s'.tokens == m.tokens - {id} && s'.channels == m.channels - {id}
  {
    var e := Printing(s, id, m, run.lines, now);
    LoggedFacts(m.t, id, run.lines, now);
    s' := AfterOutput(s, id, e, run, pub, now);
  }

  /** The container is started and prints its lines. */
  lemma Printing(s: State, id: BuildId, m: State, lines: seq<string>, now: int) returns (e: State)
    requires Leads(s, id, m) && TablesOk(m.t)
    requires m.worker == Busy(id, Registered) && id in m.tokens && id !in m.fired && id in m.t.builds
    ensures Leads(s, id, e) && e.worker == Busy(id, Inside) && id !in e.fired && ReadersReady(e, id)
    ensures e.t == Logged(m.t, id, lines, now) && e.tokens == m.tokens && e.channels - {id} == m.channels - {id}
  {
    e := Then(s, id, m, Work(Spawn));
    e := AllLines(s, id, e, lines, now);
  }

  lemma AfterOutput(s: State, id: BuildId, m: State, run: ContainerRun, pub: Publication, now: int) returns (s': State)
    requires Leads(s, id, m) && run.Ran?
    requires m.worker == Busy(id, Inside) && id in m.tokens && id !in m.fired && ReadersReady(m, id)
    requires id in m.t.builds && m.t.builds[id].status.Running?
    ensures Leads(s, id, s') && s'.worker.Idle?
    ensures s'.t == if Completes(run) then Concluded(m.t, id, run.out, pub, now) else m.t
    ensures Completes(run) ==> s'.tokens == m.tokens - {id} && s'.channels == m.channels - {id}
  {
    var e := ContainerEnds(s, id, m, run.out, now);
    e := OutputEnds(s, id, e, run.out);
    if Completes(run) {
      s' := WrapUp(s, id, e, run.out, pub, now);
      if run.out.cancelled {
        FinishAfterCancel(m.t, id, run.out, pub, now);
      }
    } else {
      s' := Then(s, id, e, Work(ReturnError));
    }
  }

  // -------- the cancel that does not stand --------

  /**
   A cancel that is granted after the claim but reaches the token registry before the worker has
   registered the build's token is overwritten: from every such state the build can go on to end
   as a success and be published.
   */
  lemma GrantedCancelCanBeLost(s: State, id: BuildId, file: string, version: string, now: int) returns (s': State)
    requires Inv(s) && s.worker == Woken(id) && IsQueued(s.t, id)
    ensures Leads(s, id, s')
    ensures id in s'.h.cancelOk && id in s'.h.published
    ensures id in s'.t.builds && s'.t.builds[id].status == Success && s'.t.builds[id].pkgFile == Some(file)
  {
    NotYetFired(s, id);
    Start(s, id);
    var m := Then(s, id, s, Work(ClaimBuild(now)));
    assert m.t.builds[id].status.Running?;
    m := TokenComesLate(s, id, m, s.t.builds[id].pkg, now);
    s' := SucceedsAnyway(s, id, m, file, version, now);
  }

  lemma SucceedsAnyway(s: State, id: BuildId, m: State, file: string, version: string, now: int) returns (m': State)
    requires Leads(s, id, m) && m.worker == Busy(id, Registered) && id !in m.fired && id in m.t.builds
    ensures Leads(s, id, m')
    ensures id in m'.h.published && m'.h.cancelOk == m.h.cancelOk
    ensures id in m'.t.builds && m'.t.builds[id].status == Success && m'.t.builds[id].pkgFile == Some(file)
  {
    m' := Then(s, id, m, Work(Spawn));
    m' := Then(s, id, m', Work(SelectExit(0)));
    m' := OutputEnds(s, id, m', Outcome(false, 0));
    m' := WrapUp(s, id, m', Outcome(false, 0), Named(file, version), now);
  }

  lemma TokenComesLate(s: State, id: BuildId, m: State, p: PkgId, now: int) returns (m': State)
    requires Leads(s, id, m) && m.worker == Busy(id, Claimed(p)) && id !in m.fired && id !in m.tokens
    requires id in m.t.builds && m.t.builds[id].status.Running? && p in m.t.packages
    ensures Leads(s, id, m') && m'.worker == Busy(id, Registered) && id !in m'.fired
    ensures id in m'.h.cancelOk && id in m'.t.builds && m'.t.builds[id].status == Cancelled
  {
    m' := Then(s, id, m, Api(CancelRow(id, now)));
    m' := Then(s, id, m', Api(FireToken(id)));
    m' := Then(s, id, m', Work(FindPackage));
    m' := Then(s, id, m', Work(RegisterToken));
  }
}
