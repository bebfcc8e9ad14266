/**
 Completeness over the interleavings of `Protocol`: which active variant is left without a build,
 and since when. And the package handlers of `Daemon`, with and without refused statements, as
 paths of the protocol.
 */
module Handlers {
  import opened Options
  import opened Variants
  import opened Schema
  import opened Protocol
  import opened Invariants
  import opened Recovery
  import opened Refinement
  import opened Completeness

  // -------- active variants without a build --------

  ghost predicate Unbuilt(t: Tables, p: PkgId, v: Variant) {
    p in t.packages && t.packages[p].variants.IsActive(v) && !HasBuild(t, p, v)
  }

  /** The action stores a package with an active variant that has no build. */
  ghost predicate Activates(s: State, a: Action, p: PkgId, v: Variant) {
    a.Api? && a.api.StorePackage? && a.api.p == p && a.api.pkg.variants.IsActive(v) && !HasBuild(s.t, p, v)
  }

  /** The action queues a build of the variant, or the variant is no longer active. */
  ghost predicate Settles(s: State, a: Action, p: PkgId, v: Variant)
    requires Can(s, a)
  {
    || (a.Api? && a.api.InsertRow? && s.txs[a.api.task].pkg == p && s.txs[a.api.task].variant == v)
    || (a.Polling? && a.poll.PollInsert? && s.txs[PollTask].pkg == p && s.txs[PollTask].variant == v)
    || (a.Api? && a.api.RemovePackage? && a.api.p == p)
    || (a.Api? && a.api.StorePackage? && a.api.p == p && !a.api.pkg.variants.IsActive(v))
  }

  /** Statements that keep the packages, and of each build its package and variant. */
  lemma SameIdentities(t: Tables, t': Tables, p: PkgId, v: Variant)
    requires t'.packages == t.packages && t'.builds.Keys == t.builds.Keys
    requires forall i | i in t.builds :: t'.builds[i].pkg == t.builds[i].pkg && t'.builds[i].variant == t.builds[i].variant
    ensures Unbuilt(t', p, v) <==> Unbuilt(t, p, v)
  {
    if HasBuild(t, p, v) {
      var i :| i in t.builds && t.builds[i].pkg == p && t.builds[i].variant == v;
      assert i in t'.builds;
    }
    if HasBuild(t', p, v) {
      var i :| i in t'.builds && t'.builds[i].pkg == p && t'.builds[i].variant == v;
      assert i in t.builds;
    }
  }

  lemma AfterInsert(t: Tables, q: PkgId, num: nat, trigger: Trigger, w: Variant, now: int, p: PkgId, v: Variant)
    requires IdsBelow(t.builds, t.nextBuildId)
    ensures Unbuilt(InsertBuild(t, q, num, trigger, w, now), p, v) <==> Unbuilt(t, p, v) && !(p == q && v == w)
  {
    var t' := InsertBuild(t, q, num, trigger, w, now);
    assert t'.builds[t.nextBuildId].variant == w;
    if HasBuild(t, p, v) {
      var i :| i in t.builds && t.builds[i].pkg == p && t.builds[i].variant == v;
      assert t'.builds[i] == t.builds[i];
    }
    if HasBuild(t', p, v) && !(p == q && v == w) {
      var i :| i in t'.builds && t'.builds[i].pkg == p && t'.builds[i].variant == v;
      assert i in t.builds;
    }
  }

  lemma AfterDelete(t: Tables, q: PkgId, p: PkgId, v: Variant)
    ensures Unbuilt(DropPackage(t, q), p, v) <==> Unbuilt(t, p, v) && p != q
  {
    var t' := DropPackage(t, q);
    if HasBuild(t, p, v) && p != q {
      var i :| i in t.builds && t.builds[i].pkg == p && t.builds[i].variant == v;
      assert t'.builds[i] == t.builds[i];
    }
    if HasBuild(t', p, v) {
      var i :| i in t'.builds && t'.builds[i].pkg == p && t'.builds[i].variant == v;
      assert i in t.builds;
    }
  }

  lemma UnbuiltApi(s: State, a: ApiAction, p: PkgId, v: Variant)
    requires IdsBelow(s.t.builds, s.t.nextBuildId) && CanApi(s, a)
    ensures Unbuilt(DoApi(s, a).t, p, v) <==>
              (Unbuilt(s.t, p, v) || Activates(s, Api(a), p, v)) && !Settles(s, Api(a), p, v)
  {
    match a
    case InsertRow(task, now) =>
      var tx := s.txs[task];
      AfterInsert(s.t, tx.pkg, NextNum(tx.seen, tx.pkg), tx.trigger, tx.variant, now, p, v);
    case RemovePackage(q) => AfterDelete(s.t, q, p, v);
    case StorePackage(q, pkg) => assert HasBuild(PutPackage(s.t, q, pkg), p, v) <==> HasBuild(s.t, p, v);
    case _ => SameIdentities(s.t, DoApi(s, a).t, p, v);
  }

  lemma UnbuiltPoll(s: State, a: PollAction, p: PkgId, v: Variant)
    requires IdsBelow(s.t.builds, s.t.nextBuildId) && CanPoll(s, a)
    ensures Unbuilt(DoPoll(s, a).t, p, v) <==> Unbuilt(s.t, p, v) && !Settles(s, Polling(a), p, v)
  {
    if a.PollInsert? {
      var tx := s.txs[PollTask];
      AfterInsert(s.t, tx.pkg, NextNum(tx.seen, tx.pkg), tx.trigger, tx.variant, a.now, p, v);
    }
  }

  lemma UnbuiltWork(s: State, a: WorkerAction, p: PkgId, v: Variant)
    requires CanWorker(s, a)
    ensures Unbuilt(DoWorker(s, a).t, p, v) <==> Unbuilt(s.t, p, v)
  {
    SameIdentities(s.t, DoWorker(s, a).t, p, v);
  }

  lemma UnbuiltBoot(s: State, a: BootAction, p: PkgId, v: Variant)
    requires CanBoot(s, a)
    ensures Unbuilt(DoBoot(s, a).t, p, v) <==> Unbuilt(s.t, p, v)
  {
    SameIdentities(s.t, DoBoot(s, a).t, p, v);
  }

  /** Nothing else makes a variant unbuilt, and nothing else makes up for it. */
  lemma UnbuiltStep(s: State, a: Action, p: PkgId, v: Variant)
    requires IdsBelow(s.t.builds, s.t.nextBuildId) && Can(s, a)
    ensures Unbuilt(Do(s, a).t, p, v) <==> (Unbuilt(s.t, p, v) || Activates(s, a, p, v)) && !Settles(s, a, p, v)
  {
    match a
    case Api(x) => UnbuiltApi(s, x, p, v);
    case Polling(x) => UnbuiltPoll(s, x, p, v);
    case Boot(x) => UnbuiltBoot(s, x, p, v);
    case Work(x) => UnbuiltWork(s, x, p, v);
    case Read(x) => assert Unbuilt(DoReader(s, x).t, p, v) <==> Unbuilt(s.t, p, v);
  }

  ghost predicate ActivatedAt(run: seq<State>, k: nat, p: PkgId, v: Variant) {
    k + 1 < |run| && exists a :: Can(run[k], a) && run[k + 1] == Do(run[k], a) && Activates(run[k], a, p, v)
  }

  ghost predicate SettledAt(run: seq<State>, k: nat, p: PkgId, v: Variant) {
    k + 1 < |run| && exists a :: Can(run[k], a) && run[k + 1] == Do(run[k], a) && Settles(run[k], a, p, v)
  }

  /** The same for step `k` of a run. */
  lemma UnbuiltAt(run: seq<State>, k: nat, p: PkgId, v: Variant)
    requires IsRun(run) && k + 1 < |run|
    ensures ActivatedAt(run, k, p, v) ==> Unbuilt(run[k + 1].t, p, v)
    ensures SettledAt(run, k, p, v) ==> !Unbuilt(run[k + 1].t, p, v)
    ensures Unbuilt(run[k + 1].t, p, v) ==> Unbuilt(run[k].t, p, v) || ActivatedAt(run, k, p, v)
    ensures Unbuilt(run[k].t, p, v) && !SettledAt(run, k, p, v) ==> Unbuilt(run[k + 1].t, p, v)
  {
    InvHolds(run, k);
    forall a | Can(run[k], a) && run[k + 1] == Do(run[k], a)
      ensures Unbuilt(run[k + 1].t, p, v) <==> (Unbuilt(run[k].t, p, v) || Activates(run[k], a, p, v)) && !Settles(run[k], a, p, v)
    {
      UnbuiltStep(run[k], a, p, v);
    }
    assert StepAt(run, k);
  }

  /** No step from `j` on, before state `i`, settles it. */
  ghost predicate NeverSettled(run: seq<State>, j: nat, i: nat, p: PkgId, v: Variant) {
    forall k: nat | j <= k < i :: !SettledAt(run, k, p, v)
  }

  lemma {:induction false} LastActivation(run: seq<State>, i: nat, p: PkgId, v: Variant) returns (j: nat)
    requires IsRun(run) && i < |run| && Unbuilt(run[i].t, p, v)
    ensures j < i && ActivatedAt(run, j, p, v) && NeverSettled(run, j + 1, i, p, v)
  {
    assert i > 0;
    UnbuiltAt(run, i - 1, p, v);
    if ActivatedAt(run, i - 1, p, v) {
      j := i - 1;
    } else {
      j := LastActivation(run, i - 1, p, v);
    }
  }

  lemma {:induction false} StaysUnbuilt(run: seq<State>, j: nat, i: nat, p: PkgId, v: Variant)
    requires IsRun(run) && j < i < |run| && ActivatedAt(run, j, p, v) && NeverSettled(run, j + 1, i, p, v)
    ensures Unbuilt(run[i].t, p, v)
  {
    UnbuiltAt(run, i - 1, p, v);
    if j < i - 1 {
      assert !SettledAt(run, i - 1, p, v);
      StaysUnbuilt(run, j, i - 1, p, v);
    }
  }

  /** It was made active without a build at some step, and nothing has settled that since. */
  ghost predicate LeftBehind(run: seq<State>, i: nat, p: PkgId, v: Variant) {
    exists j: nat :: j < i && ActivatedAt(run, j, p, v) && NeverSettled(run, j + 1, i, p, v)
  }

  /**
   In any state of any run an active variant of a package has no build exactly when some step
   stored the package with it while there was no build, and no step since has queued one, stored
   the package without it, or deleted the package. Neither the worker nor the start-up scan nor a
   change of variants that finds it active makes up for it.
   */
  lemma UnbuiltIff(run: seq<State>, i: nat, p: PkgId, v: Variant)
    requires IsRun(run) && i < |run|
    ensures Unbuilt(run[i].t, p, v) <==> LeftBehind(run, i, p, v)
  {
    if Unbuilt(run[i].t, p, v) {
      var j := LastActivation(run, i, p, v);
    }
    if LeftBehind(run, i, p, v) {
      var j: nat :| j < i && ActivatedAt(run, j, p, v) && NeverSettled(run, j + 1, i, p, v);
      StaysUnbuilt(run, j, i, p, v);
    }
  }

  /** Completeness is that no variant is unbuilt. */
  lemma CompleteIffNoneUnbuilt(t: Tables)
    ensures AllBuilt(t) <==> forall p, v :: !Unbuilt(t, p, v)
  {
    if forall p, v :: !Unbuilt(t, p, v) {
      forall p | p in t.packages
        ensures VariantsBuilt(t, p)
      {
        forall v: Variant | t.packages[p].variants.IsActive(v)
          ensures HasBuild(t, p, v)
        {
          assert !Unbuilt(t, p, v);
        }
      }
    }
    if AllBuilt(t) {
      assert forall p | p in t.packages :: VariantsBuilt(t, p);
    }
  }

  // -------- the handlers --------

  /** Handlers' actions lead from `s` to `s'`. */
  ghost predicate Requests(s: State, s': State) {
    exists acts :: Path(s, acts, s') && ByHandlers(acts)
  }

  predicate ByHandlers(acts: seq<Action>) {
    forall i | 0 <= i < |acts| :: acts[i].Api?
  }

  lemma NoRequest(s: State)
    ensures Requests(s, s)
  {
    assert Path(s, [], s);
  }

  lemma ThenRequest(s: State, m: State, a: ApiAction) returns (m': State)
    requires Requests(s, m) && CanApi(m, a)
    ensures m' == DoApi(m, a) && Requests(s, m')
  {
    var acts :| Path(s, acts, m) && ByHandlers(acts);
    m' := Longer(s, acts, m, Api(a));
  }

  /** An `enqueue_build` that nobody disturbs. */
  lemma EnqueueIsAPath(s: State, m: State, p: PkgId, v: Variant, trigger: Trigger, now: int) returns (m': State)
    requires Requests(s, m) && TablesOk(m.t) && p in m.t.packages && Handler(0) !in m.txs && trigger != Poll
    ensures Requests(s, m') && TablesOk(m'.t)
    ensures m' == m.(t := QueuedOne(m.t, p, v, trigger, now), commits := m'.commits, h := m.h.(origins := m'.h.origins))
  {
    InsertKeepsOk(m.t, p, trigger, v, now);
    m' := ThenRequest(s, m, ReadNum(Handler(0), p, trigger, v));
    m' := ThenRequest(s, m', InsertRow(Handler(0), now));
    assert m'.txs == m.txs;
  }

  /** One that is refused, because somebody has committed since its read. */
  lemma RefusalIsAPath(s: State, m: State, p: PkgId, v: Variant, trigger: Trigger) returns (between: State, m': State)
    requires Requests(s, m) && Handler(0) !in m.txs && trigger != Poll
    ensures Requests(s, between) && Handler(0) in between.txs && !InsertGoes(between, between.txs[Handler(0)])
    ensures Requests(s, m') && m' == m.(commits := m'.commits)
  {
    between := ThenRequest(s, m, ReadNum(Handler(0), p, trigger, v));
    between := ThenRequest(s, between, WriteElsewhere);
    m' := ThenRequest(s, between, AbortTx(Handler(0)));
    assert m'.txs == m.txs;
  }

  lemma {:induction false} EnqueueAllIsAPath(s: State, m: State, p: PkgId, vs: seq<Variant>, trigger: Trigger, now: int) returns (m': State)
    requires Requests(s, m) && TablesOk(m.t) && (vs != [] ==> p in m.t.packages) && Handler(0) !in m.txs && trigger != Poll
    ensures Requests(s, m') && TablesOk(m'.t) && m'.t.packages == m.t.packages
    ensures m' == m.(t := EnqueueAll(m.t, p, vs, trigger, now), commits := m'.commits, h := m.h.(origins := m'.h.origins))
    decreases |vs|
  {
    if vs == [] {
      m' := m;
    } else {
      m' := EnqueueAllIsAPath(s, m, p, vs[..|vs| - 1], trigger, now);
      m' := EnqueueIsAPath(s, m', p, vs[|vs| - 1], trigger, now);
    }
  }

  /**
   What `Daemon.AppState.FinishAdd` and `Daemon.AppState.ApplyVariants` do to the tables, for any
   number of builds up to a refusal, is what a path of the protocol does: the handler stores the
   variants of `q`, queues the builds of `done` for `p`, and, if one is refused, stops there.
   */
  lemma HandlerIsAPath(s: State, q: PkgId, desired: PackageVariants, p: PkgId, done: seq<Variant>, refused: Option<Variant>, now: int)
    returns (s': State)
    requires TablesOk(s.t) && q in s.t.packages && (done != [] ==> p in s.t.packages) && Handler(0) !in s.txs
    ensures Requests(s, s')
    ensures s' == s.(t := EnqueueAll(WithVariants(s.t, q, desired), p, done, Manual, now), commits := s'.commits,
                     h := s.h.(origins := s'.h.origins))
  {
    NoRequest(s);
    var m := ThenRequest(s, s, StorePackage(q, s.t.packages[q].(variants := desired)));
    m := EnqueueAllIsAPath(s, m, p, done, Manual, now);
    s' := m;
    if refused.Some? {
      var between: State;
      between, s' := RefusalIsAPath(s, m, p, refused.value, Manual);
    }
  }
}
