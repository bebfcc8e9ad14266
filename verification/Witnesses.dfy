/** Runs from a fresh database on which the code misses what its own comments say. */
module Witnesses {
  import opened Options
  import opened Variants
  import opened Schema
  import opened Protocol
  import opened Invariants
  import opened Theorems
  import opened Daemon
  import opened Refinement
  import opened Cancellation
  import opened Polling
  import opened Completeness
  import opened Handlers

  // -------- getting started --------

  /** A started daemon that has nothing to do and has not been told anything. */
  ghost predicate Fresh(s: State) {
    && s.phase.Serving? && Rests(s) && s.poller.Sleeping? && s.txs == map[]
    && s.t.builds == map[] && s.t.logs == map[] && s.t.nextBuildId == 1
    && Sent(s) == {} && s.h.errored == {} && s.h.pollWhole
  }

  lemma Started(now: int) returns (s: State)
    ensures Reachable(s) && Fresh(s) && s.t.packages == map[]
  {
    assert Path(INITIAL, [], INITIAL);
    s := Go(INITIAL, Boot(ReapStale(now)));
    s := Go(s, Boot(StartWorker));
    s := Go(s, Boot(ReadQueue));
    assert WithStatus(map[], Queued) == {};
    s := Go(s, Boot(ScanDone));
  }

  lemma WithPackage(s: State, p: PkgId, pkg: Package) returns (s': State)
    requires Reachable(s) && Fresh(s)
    ensures Reachable(s') && Fresh(s') && s'.t.packages == s.t.packages[p := pkg]
  {
    s' := Go(s, Api(StorePackage(p, pkg)));
  }

  /** One `enqueue_build` of a handler, from its SELECT to its commit. */
  lemma Enqueued(s: State, p: PkgId, v: Variant, now: int) returns (s': State)
    requires Reachable(s) && TablesOk(s.t) && p in s.t.packages && Handler(0) !in s.txs
    ensures Reachable(s') && TablesOk(s'.t)
    ensures s' == s.(t := InsertBuild(s.t, p, NextNum(s.t, p), Manual, v, now), commits := s'.commits, h := s'.h)
    ensures s'.h == s.h.(origins := s'.h.origins)
  {
    InsertKeepsOk(s.t, p, Manual, v, now);
    s' := Go(s, Api(ReadNum(Handler(0), p, Manual, v)));
    s' := Go(s', Api(InsertRow(Handler(0), now)));
    assert s'.txs == s.txs;
  }

  lemma FreshTables(s: State)
    requires Fresh(s)
    ensures TablesOk(s.t)
  {
  }

  /** The worker has been woken for build 1, the only one. */
  lemma FirstBuildIsWoken(pkg: Package, now: int) returns (s: State)
    ensures Reachable(s) && s.worker == Woken(1) && IsQueued(s.t, 1)
  {
    s := Started(now);
    s := WithPackage(s, 1, pkg);
    FreshTables(s);
    s := Enqueued(s, 1, Default, now);
    s := Go(s, Api(SendWake(1)));
    s := Go(s, Work(Receive(1)));
  }

  // -------- cancelled and published --------

  lemma LeadsOn(s: State, id: BuildId, s': State)
    requires Reachable(s) && Leads(s, id, s')
    ensures Reachable(s')
  {
    var acts :| Path(s, acts, s') && forall i | 0 <= i < |acts| :: About(acts[i], id);
    GoAlong(s, acts, s');
  }

  lemma WokenAndUnfired(pkg: Package, now: int) returns (s: State)
    ensures Reachable(s) && s.worker == Woken(1) && IsQueued(s.t, 1)
    ensures s.t.builds[1].pkg in s.t.packages && 1 !in s.fired
  {
    s := FirstBuildIsWoken(pkg, now);
    ReachableInv(s);
    NotYetFired(s, 1);
  }

  /** A whole run in which a granted cancel is overwritten and the build is published. */
  lemma CancelLostOnARun(pkg: Package, file: string, version: string, now: int) returns (run: seq<State>, end: State)
    ensures IsRun(run) && run[|run| - 1] == end
    ensures 1 in end.h.cancelOk && 1 in end.h.published
    ensures 1 in end.t.builds && end.t.builds[1].status == Success
  {
    var woken := FirstBuildIsWoken(pkg, now);
    ReachableInv(woken);
    end := GrantedCancelCanBeLost(woken, 1, file, version, now);
    LeadsOn(woken, 1, end);
    run := ReachableOnARun(end);
  }

  /** Both windows of `Cancellation.Overwritable` are reached, with a cancel granted in them. */
  lemma BothWindowsOnARun(pkg: Package, now: int) returns (early: State, late: State)
    ensures Reachable(early) && 1 in early.cancelling && IsCancelled(early.t, 1) && Overwritable(early, 1) && early.worker.at.Claimed?
    ensures Reachable(late) && 1 in late.cancelling && IsCancelled(late.t, 1) && Overwritable(late, 1) && late.worker.at.Exited?
  {
    var woken := WokenAndUnfired(pkg, now);
    early := CancelledTooEarly(woken, 1, now);
    LeadsOn(woken, 1, early);
    late := CancelledTooLate(woken, 1, now);
    LeadsOn(woken, 1, late);
  }

  /** And so is one with a granted cancel that comes to nothing although the worker is done with the build. */
  lemma StampedBeforeAnswered(pkg: Package, now: int) returns (m: State)
    ensures Reachable(m) && 1 in m.cancelling && 1 in m.t.builds && m.t.builds[1].status == Success
    ensures !Holds(m, 1) && 1 in m.h.published && !Stands(DoApi(m, FireToken(1)), 1)
  {
    var woken := WokenAndUnfired(pkg, now);
    m := StampedBeforeFired(woken, 1, now);
    LeadsOn(woken, 1, m);
    StandsIff(m, 1);
  }

  lemma StandsIff(m: State, b: BuildId)
    requires Reachable(m) && b in m.cancelling && b in m.t.builds
    ensures var s := DoApi(m, FireToken(b)); Stands(s, b) <==> IsCancelled(s.t, b) && !Overwritable(s, b)
  {
    ReachableInv(m);
    GrantedCancelStands(m, b);
  }

  // -------- the second variant waits --------

  /** The worker is idle or has to do with build `id`. */
  predicate OnlyWith(w: Worker, id: BuildId) {
    w.Idle? || w == Woken(id) || (w.Busy? && w.b == id)
  }

  /** Actions about one build tell the worker nothing new. */
  ghost predicate Untold(s: State, s': State, id: BuildId) {
    && s'.phase == s.phase && s'.scan == s.scan && s'.wake == s.wake && Sent(s') == Sent(s)
    && s'.h.errored <= s.h.errored + {id} && OnlyWith(s'.worker, id)
  }

  lemma AboutStep(s: State, a: Action, id: BuildId)
    requires Can(s, a) && About(a, id) && OnlyWith(s.worker, id)
    ensures Untold(s, Do(s, a), id)
  {
    match a
    case Work(x) => assert Untold(s, DoWorker(s, x), id);
    case Read(x) => assert Untold(s, DoReader(s, x), id);
    case Api(x) => assert Untold(s, DoApi(s, x), id);
  }

  lemma {:induction false} AboutPath(s: State, acts: seq<Action>, s': State, id: BuildId)
    requires Path(s, acts, s') && (forall i | 0 <= i < |acts| :: About(acts[i], id)) && OnlyWith(s.worker, id)
    ensures Untold(s, s', id)
    decreases |acts|
  {
    if acts != [] {
      assert About(acts[0], id);
      AboutStep(s, acts[0], id);
      AboutPath(Do(s, acts[0]), acts[1..], s', id);
    }
  }

  /** The worker handles one build, and nothing else happens. */
  lemma Handled(s: State, id: BuildId, outcome: ContainerRun, pub: Publication, now: int) returns (end: State)
    requires Reachable(s) && s.worker == Woken(id) && IsQueued(s.t, id)
    ensures Reachable(end) && end.worker.Idle? && end.t == AfterBuild(s.t, id, outcome, pub, now) && Untold(s, end, id)
  {
    ReachableInv(s);
    end := ProcessOneIsAPath(s, id, outcome, pub, now);
    var acts :| Path(s, acts, end) && forall i | 0 <= i < |acts| :: About(acts[i], id);
    AboutPath(s, acts, end, id);
    GoAlong(s, acts, end);
  }

  lemma OthersWait(t: Tables, id: BuildId, outcome: ContainerRun, pub: Publication, now: int)
    requires TablesOk(t) && IsQueued(t, id)
    ensures var t' := AfterBuild(t, id, outcome, pub, now);
            && t'.packages == t.packages && id in t'.builds && EndsLike(t'.builds[id], outcome, pub)
            && t'.builds[id].variant == t.builds[id].variant
            && (forall b | b in t.builds && b != id :: b in t'.builds && t'.builds[b] == t.builds[b])
  {
    AfterBuildFacts(t, id, outcome, pub, now);
  }

  /** A package's builds for the default and another variant are queued, and the first one is woken. */
  lemma TwoVariantsQueued(pkg: Package, v: Variant, now: int) returns (s: State)
    ensures Reachable(s) && s.worker == Woken(1) && s.scan.Scanned? && s.wake == multiset{} && s.phase.Serving?
    ensures IsQueued(s.t, 1) && IsQueued(s.t, 2) && s.t.builds[1].variant == Default && s.t.builds[2].variant == v
    ensures s.t.builds[1].pkg == s.t.builds[2].pkg == 1 && s.t.packages == map[1 := pkg]
    ensures Sent(s) == {1} && s.h.errored == {} && TablesOk(s.t)
  {
    s := Started(now);
    s := WithPackage(s, 1, pkg);
    FreshTables(s);
    s := Enqueued(s, 1, Default, now);
    s := Enqueued(s, 1, v, now);
    s := Go(s, Api(SendWake(1)));
    s := Go(s, Work(Receive(1)));
  }

  /**
   A package with a second variant is added, and both its builds are queued as the handler does
   it. Whatever the first container and its publication do, the daemon comes to rest with the
   second build still in the queue: no error, nothing left to receive, and no id on its way.
   */
  lemma SecondVariantWaits(pkg: Package, v: Variant, outcome: ContainerRun, pub: Publication, now: int) returns (run: seq<State>, end: State)
    requires pkg.variants.Active() == [Default, v]
    ensures IsRun(run) && run[|run| - 1] == end && end.phase.Serving? && Rests(end)
    ensures end.t.packages == map[1 := pkg]
    ensures 1 in end.t.builds && end.t.builds[1].variant == Default && EndsLike(end.t.builds[1], outcome, pub)
    ensures IsQueued(end.t, 2) && end.t.builds[2].variant == v && end.t.builds[2].pkg == 1
    ensures 2 !in end.h.errored && 2 !in Sent(end)
  {
    var s := TwoVariantsQueued(pkg, v, now);
    end := Handled(s, 1, outcome, pub, now);
    OthersWait(s.t, 1, outcome, pub, now);
    run := ReachableOnARun(end);
  }

  // -------- active and never built --------

  lemma RequestsOn(s: State, s': State)
    requires Reachable(s) && Requests(s, s')
    ensures Reachable(s')
  {
    var acts :| Path(s, acts, s') && ByHandlers(acts);
    GoAlong(s, acts, s');
  }

  /** The default and one more. */
  predicate Two(desired: PackageVariants, v: Variant) {
    v != Default && desired.Active() == [Default, v]
  }

  lemma TwoAreActive(desired: PackageVariants, v: Variant)
    requires Two(desired, v)
    ensures desired.IsActive(v) && desired.IsActive(Default)
    ensures forall w: Variant | desired.IsActive(w) :: w == Default || w == v
    ensures NewlyActive(desired.Active(), desired) == []
  {
    assert v in desired.Active() && Default in desired.Active();
    NothingNewlyActive(desired.Active(), desired);
  }

  /**
   A package is added with a second variant, and the insert of that variant's build is refused
   because of a commit after its read. The variant stays active without a build in a daemon at
   rest; a change of variants to the same set finds it active and queues nothing.
   */
  lemma RefusedVariantStaysUnbuilt(name: string, desired: PackageVariants, v: Variant, now: int) returns (run: seq<State>, end: State)
    requires Two(desired, v)
    ensures IsRun(run) && run[|run| - 1] == end && Rests(end)
    ensures end.t.packages == map[1 := Package(name, false, desired)] && HasBuild(end.t, 1, Default) && Unbuilt(end.t, 1, v)
    ensures NewlyActive(desired.Active(), end.t.packages[1].variants) == []
  {
    var s := Started(now);
    s := WithPackage(s, 1, Package(name, false, DEFAULT_VARIANTS));
    FreshTables(s);
    end := HandlerIsAPath(s, 1, desired, 1, [Default], Some(v), now);
    RequestsOn(s, end);
    run := ReachableOnARun(end);
    TwoAreActive(desired, v);
    QueuedDefault(s.t, desired, v, now);
  }

  lemma QueuedDefault(t: Tables, desired: PackageVariants, v: Variant, now: int)
    requires t.builds == map[] && 1 in t.packages && desired.IsActive(v) && v != Default
    ensures var t' := EnqueueAll(WithVariants(t, 1, desired), 1, [Default], Manual, now);
            t'.packages == WithVariants(t, 1, desired).packages && HasBuild(t', 1, Default) && Unbuilt(t', 1, v)
  {
    var put := WithVariants(t, 1, desired);
    EnqueueAllFacts(put, 1, [Default], Manual, now);
    HasBuildAfter(put, 1, [Default], Manual, now, 1, Default);
    HasBuildAfter(put, 1, [Default], Manual, now, 1, v);
  }

  /** A package with both its variants built. */
  lemma BothBuilt(name: string, desired: PackageVariants, v: Variant, now: int) returns (s: State)
    requires Two(desired, v)
    ensures Reachable(s) && TablesOk(s.t) && s.txs == map[] && Rests(s)
    ensures s.t.packages == map[1 := Package(name, false, desired)] && AllBuilt(s.t)
  {
    var start := Started(now);
    start := WithPackage(start, 1, Package(name, false, desired));
    FreshTables(start);
    s := Enqueued(start, 1, Default, now);
    s := Enqueued(s, 1, v, now);
    TwoAreActive(desired, v);
    assert s.t.builds[1].variant == Default && s.t.builds[2].variant == v;
    assert VariantsBuilt(s.t, 1);
  }

  /** It is deleted and added again with the default only. */
  lemma AddedAgain(name: string, s: State, now: int) returns (s': State)
    requires TablesOk(s.t) && s.txs == map[] && Rests(s) && s.t.packages.Keys == {1}
    ensures Requests(s, s') && TablesOk(s'.t) && s'.txs == map[] && Rests(s')
    ensures s'.t.packages == map[1 := Package(name, false, DEFAULT_VARIANTS)] && AllBuilt(s'.t)
    ensures s'.t.builds.Keys == {s.t.nextBuildId} && s'.t.builds[s.t.nextBuildId].variant == Default
  {
    NoRequest(s);
    DeleteKeepsOk(s.t, 1);
    s' := ThenRequest(s, s, RemovePackage(1));
    assert s'.t.builds == map[];
    s' := ThenRequest(s, s', StorePackage(1, Package(name, false, DEFAULT_VARIANTS)));
    s' := EnqueueIsAPath(s, s', 1, Default, Manual, now);
    assert s'.t.builds[s.t.nextBuildId].variant == Default;
    assert HasBuild(s'.t, 1, Default);
    assert VariantsBuilt(s'.t, 1);
  }

  /**
   A request to change variants reads the package while its second variant is active and built.
   Before it stores the variants the package is deleted and added again with the default only. The
   variants it stores make the second one active again; against what it had read nothing is newly
   active, so no build is queued. Everything was complete before each of the requests.
   */
  lemma StaleVariantsStayUnbuilt(name: string, desired: PackageVariants, v: Variant, now: int) returns (read: State, written: State, end: State)
    requires Two(desired, v)
    ensures Reachable(read) && Requests(read, written) && Requests(written, end) && Rests(end)
    ensures AllBuilt(read.t) && AllBuilt(written.t)
    ensures read.t.packages == map[1 := Package(name, false, desired)]
    ensures written.t.packages == map[1 := Package(name, false, DEFAULT_VARIANTS)]
    ensures var newly := NewlyActive(desired.Active(), read.t.packages[1].variants);
            end.t == EnqueueAll(WithVariants(written.t, 1, desired), 1, newly, Manual, now)
    ensures Unbuilt(end.t, 1, v)
  {
    read := BothBuilt(name, desired, v, now);
    written := AddedAgain(name, read, now);
    TwoAreActive(desired, v);
    end := HandlerIsAPath(written, 1, desired, 1, [], None, now);
  }

  // -------- polled twice --------

  lemma EnqueuedAndWoken(s: State, p: PkgId, now: int) returns (s': State)
    requires Reachable(s) && TablesOk(s.t) && p in s.t.packages && Handler(0) !in s.txs
    ensures Reachable(s') && TablesOk(s'.t) && s'.poller == s.poller && s'.txs == s.txs
    ensures s'.t == InsertBuild(s.t, p, NextNum(s.t, p), Manual, Default, now)
  {
    s' := Enqueued(s, p, Default, now);
    s' := Go(s', Api(SendWake(s.t.nextBuildId)));
  }

  /** As many requests to rebuild a package, each of which queues its build and wakes the worker. */
  lemma {:induction false} ManyEnqueued(s: State, p: PkgId, n: nat, now: int) returns (s': State)
    requires Reachable(s) && TablesOk(s.t) && p in s.t.packages && Handler(0) !in s.txs
    ensures Reachable(s') && TablesOk(s'.t) && s'.t.packages == s.t.packages && s'.poller == s.poller && s'.txs == s.txs
    ensures forall b | b in s.t.builds :: b in s'.t.builds && s'.t.builds[b] == s.t.builds[b]
    ensures forall b: BuildId | s.t.nextBuildId <= b < s.t.nextBuildId + n ::
              b in s'.t.builds && s'.t.builds[b].status.Queued? && s'.t.builds[b].queuedAt == now
    ensures forall b | b in s'.t.builds && b !in s.t.builds :: s'.t.builds[b].pkg == p
    ensures s'.t.nextBuildId == s.t.nextBuildId + n
    decreases n
  {
    if n == 0 {
      s' := s;
    } else {
      s' := ManyEnqueued(s, p, n - 1, now);
      s' := EnqueuedAndWoken(s', p, now);
    }
  }

  function Range(lo: nat, n: nat): (r: set<nat>)
    ensures |r| == n && forall i :: i in r <==> lo <= i < lo + n
  {
    if n == 0 then {} else Range(lo, n - 1) + {lo + n - 1}
  }

  function Elements(r: seq<nat>): (e: set<nat>)
    ensures |e| <= |r| && forall x :: x in e <==> x in r
  {
    if r == [] then {} else Elements(r[..|r| - 1]) + {r[|r| - 1]}
  }

  /** A list of the newest rows that reaches back to `b` holds everything newer. */
  lemma NewerAreListed(builds: Builds, st: Status, b: BuildId, lo: BuildId, limit: nat, r: seq<BuildId>)
    requires IsNewest(builds, st, limit, r) && b in r && b < lo
    requires forall i | lo <= i < lo + limit ::
               i in builds && builds[i].status == st && builds[i].queuedAt >= builds[b].queuedAt
    ensures forall i: BuildId | lo <= i < lo + limit :: i in r
  {
    forall i: BuildId | lo <= i < lo + limit
      ensures i in r
    {
      assert Before(builds, i, b);
    }
  }

  lemma ManyElements(r: seq<nat>, b: nat, lo: nat, n: nat)
    requires b in r && b < lo
    requires forall i: nat | lo <= i < lo + n :: i in r
    ensures |r| > n
  {
    SubsetSize(Range(lo, n) + {b}, Elements(r));
  }

  /** As many newer rows as the snapshot has room for keep a row out of it. */
  lemma CrowdedOut(builds: Builds, b: BuildId, lo: BuildId, limit: nat)
    requires b in builds && b < lo
    requires forall i | lo <= i < lo + limit ::
               i in builds && builds[i].status == builds[b].status && builds[i].queuedAt >= builds[b].queuedAt
    ensures b !in ListBuilds(builds, builds[b].status, limit)
  {
    var r := ListBuilds(builds, builds[b].status, limit);
    ListBuildsSpec(builds, builds[b].status, limit);
    if b in r {
      NewerAreListed(builds, builds[b].status, b, lo, limit, r);
      ManyElements(r, b, lo, limit);
    }
  }

  lemma SubsetSize(a: set<nat>, b: set<nat>)
    requires a <= b
    ensures |a| <= |b|
  {
    assert b == a + (b - a);
  }

  /** An uninterrupted pass of the poller in which every ref has advanced. */
  lemma PassedOver(s: State, todo: seq<Polled>, now: int) returns (s': State)
    requires Reachable(s) && TablesOk(s.t) && s.poller.Sleeping? && s.txs == map[] && IsPackageList(s.t, todo)
    ensures Reachable(s') && s'.poller.Sleeping? && s'.txs == map[]
    ensures s'.t == AfterPass(s.t, todo, SeenLive(s.t), now)
  {
    var acts;
    acts, s' := PassIsAPath(s, todo, now);
    GoAlong(s, acts, s');
  }

  /** One package is rebuilt when its ref advances, the other one is not. */
  function TwoPackages(name: string, other: string): map<PkgId, Package> {
    map[1 := Package(name, true, DEFAULT_VARIANTS), 2 := Package(other, false, DEFAULT_VARIANTS)]
  }

  const TWO := [Polled(1, true), Polled(2, false)]

  lemma NothingSeen(t: Tables)
    requires t.builds == map[]
    ensures SeenLive(t) == {}
  {
    ListBuildsSpec(t.builds, Queued, POLL_LIMIT);
    ListBuildsSpec(t.builds, Running, POLL_LIMIT);
  }

  lemma PassOverTwo(t: Tables, now: int)
    ensures AfterPass(t, TWO, {}, now) == PollBuild(t, 1, now)
  {
    assert TWO[1..] == [Polled(2, false)];
    assert AfterPass(PollBuild(t, 1, now), TWO[1..], {}, now) == AfterPass(PollBuild(t, 1, now), [], {}, now);
  }

  /** One poll build is in the queue. */
  lemma PolledOnce(name: string, other: string, now: int) returns (s: State)
    ensures Reachable(s) && TablesOk(s.t) && s.poller.Sleeping? && s.txs == map[]
    ensures s.t.packages == TwoPackages(name, other) && s.t.nextBuildId == 2 && s.t.builds.Keys == {1}
    ensures LivePoll(s.t.builds, 1) && s.t.builds[1].pkg == 1 && s.t.builds[1].status.Queued? && s.t.builds[1].queuedAt == now
  {
    s := Started(now);
    s := WithPackage(s, 1, Package(name, true, DEFAULT_VARIANTS));
    s := WithPackage(s, 2, Package(other, false, DEFAULT_VARIANTS));
    FreshTables(s);
    var t := s.t;
    NothingSeen(t);
    assert TWO[0].pkg == 1 && TWO[1].pkg == 2;
    s := PassedOver(s, TWO, now);
    PassOverTwo(t, now);
    InsertKeepsOk(t, 1, Poll, Default, now);
  }

  lemma SecondPollBuild(t: Tables, b: BuildId, now: int) returns (c: BuildId)
    requires TablesOk(t) && IsPackageList(t, TWO) && b < 2 <= t.nextBuildId
    requires LivePoll(t.builds, b) && t.builds[b].status.Queued? && t.builds[b].pkg == 1 && t.builds[b].queuedAt == now
    requires 1 in t.packages && t.packages[1].autoRebuild
    requires forall d | d in t.builds && t.builds[d].pkg == 1 :: d == b
    requires forall d: BuildId | 2 <= d < 2 + POLL_LIMIT :: d in t.builds && t.builds[d].status.Queued? && t.builds[d].queuedAt == now
    ensures var after := AfterPass(t, TWO, SeenLive(t), now).builds;
            LivePoll(after, b) && LivePoll(after, c) && b != c && after[b].pkg == after[c].pkg
  {
    CrowdedOut(t.builds, b, 2, POLL_LIMIT);
    MissedBuildIsQueuedAgain(t, TWO, now, 1);
    var after := AfterPass(t, TWO, SeenLive(t), now).builds;
    assert !InSnapshot(t, b);
    assert QueuedNew(t.builds, after, 1);
    c :| c !in t.builds && LivePoll(after, c) && after[c].pkg == 1;
  }

  /**
   A poll build waits in the queue, a thousand builds of another package are queued after it, and
   the next pass queues the first package again: two live poll builds of one package.
   */
  lemma PolledTwice(name: string, other: string, now: int) returns (run: seq<State>, end: State, b: BuildId, c: BuildId)
    ensures IsRun(run) && run[|run| - 1] == end
    ensures LivePoll(end.t.builds, b) && LivePoll(end.t.builds, c) && b != c
    ensures end.t.builds[b].pkg == end.t.builds[c].pkg && !OneLivePoll(end.t.builds)
  {
    var once := PolledOnce(name, other, now);
    var s := ManyEnqueued(once, 2, POLL_LIMIT, now);
    assert TWO[0].pkg == 1 && TWO[1].pkg == 2;
    end := PassedOver(s, TWO, now);
    b := 1;
    c := SecondPollBuild(s.t, 1, now);
    run := ReachableOnARun(end);
  }
}
