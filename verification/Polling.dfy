/** What one uninterrupted pass of the poller does, and when it queues a package twice. */
module Polling {
  import opened Options
  import opened Variants
  import opened Schema
  import opened Protocol
  import opened Invariants
  import opened Refinement

  /** The packages of the rows that the two snapshots read. */
  ghost function SeenLive(t: Tables): set<PkgId> {
    LivePackages(t, Queued) + LivePackages(t, Running)
  }

  predicate Due(x: Polled, live: set<PkgId>) {
    x.autoRebuild && x.pkg !in live
  }

  ghost function PollBuild(t: Tables, p: PkgId, now: int): Tables {
    InsertBuild(t, p, NextNum(t, p), Poll, Default, now)
  }

  /** The loop of a pass in which every package's ref has advanced. */
  ghost function AfterPass(t: Tables, todo: seq<Polled>, live: set<PkgId>, now: int): Tables
    decreases |todo|
  {
    if todo == [] then t
    else AfterPass(if Due(todo[0], live) then PollBuild(t, todo[0].pkg, now) else t, todo[1..], live, now)
  }

  ghost predicate AllStored(t: Tables, todo: seq<Polled>) {
    forall i | 0 <= i < |todo| :: todo[i].pkg in t.packages
  }

  /** Such a pass is one of the ways the poller can go. */
  lemma PassIsAPath(s: State, todo: seq<Polled>, now: int) returns (acts: seq<Action>, s': State)
    requires TablesOk(s.t) && s.poller.Sleeping? && IsPackageList(s.t, todo)
    ensures Path(s, acts, s') && s' == s.(t := AfterPass(s.t, todo, SeenLive(s.t), now), commits := s'.commits, txs := s'.txs, h := s'.h)
    ensures s'.txs == s.txs - {PollTask}
    ensures s'.h == s.h.(pollWhole := s'.h.pollWhole, origins := s'.h.origins)
  {
    assert Path(s, [], s);
    var m := Longer(s, [], s, Polling(ListPackages(todo)));
    acts := [] + [Polling(ListPackages(todo))];
    m := Longer(s, acts, m, Polling(ListQueued));
    acts := acts + [Polling(ListQueued)];
    m := Longer(s, acts, m, Polling(ListRunning));
    acts, m := LoopIsAPath(s, acts + [Polling(ListRunning)], m, now);
    s' := Longer(s, acts, m, Polling(PollError));
    acts := acts + [Polling(PollError)];
  }

  lemma {:induction false} LoopIsAPath(s: State, acts: seq<Action>, m: State, now: int) returns (acts': seq<Action>, m': State)
    requires Path(s, acts, m) && TablesOk(m.t) && m.poller.Looping? && AllStored(m.t, m.poller.todo)
    ensures Path(s, acts', m')
    ensures m' == m.(t := AfterPass(m.t, m.poller.todo, m.poller.live, now), commits := m'.commits, poller := m'.poller, txs := m'.txs, h := m'.h)
    ensures m'.txs - {PollTask} == m.txs - {PollTask}
    ensures m'.h == m.h.(origins := m'.h.origins)
    decreases |m.poller.todo|
  {
    acts', m' := acts, m;
    if m.poller.todo != [] {
      var head := m.poller.todo[0];
      if Due(head, m.poller.live) {
        InsertKeepsOk(m.t, head.pkg, Poll, Default, now);
        m' := Longer(s, acts, m', Polling(PollRead));
        acts' := acts + [Polling(PollRead)];
        m' := Longer(s, acts', m', Polling(PollInsert(now)));
        acts' := acts' + [Polling(PollInsert(now))];
      } else {
        m' := Longer(s, acts, m', Polling(SkipPackage));
        acts' := acts + [Polling(SkipPackage)];
      }
      acts', m' := LoopIsAPath(s, acts', m', now);
    }
  }

  // -------- which packages get a build --------

  /** The pass has added a live poll build of the package. */
  ghost predicate QueuedNew(before: Builds, after: Builds, p: PkgId) {
    exists c :: c !in before && LivePoll(after, c) && after[c].pkg == p
  }

  ghost predicate DueIn(todo: seq<Polled>, live: set<PkgId>, p: PkgId) {
    exists i :: 0 <= i < |todo| && todo[i].pkg == p && Due(todo[i], live)
  }

  lemma OneAdded(t: Tables, p: PkgId, now: int)
    requires TablesOk(t) && p in t.packages
    ensures var t' := PollBuild(t, p, now);
            && TablesOk(t') && t'.packages == t.packages
            && t'.builds.Keys == t.builds.Keys + {t.nextBuildId} && t.nextBuildId !in t.builds
            && LivePoll(t'.builds, t.nextBuildId)
            && (forall b | b in t.builds :: t'.builds[b] == t.builds[b])
  {
    InsertKeepsOk(t, p, Poll, Default, now);
  }

  /** Nothing but new poll builds is added. */
  lemma {:induction false} PassAdds(t: Tables, todo: seq<Polled>, live: set<PkgId>, now: int)
    requires TablesOk(t) && AllStored(t, todo)
    ensures var t' := AfterPass(t, todo, live, now);
            && TablesOk(t')
            && (forall b | b in t.builds :: b in t'.builds && t'.builds[b] == t.builds[b])
            && (forall b | b in t'.builds && b !in t.builds :: LivePoll(t'.builds, b))
    decreases |todo|
  {
    if todo != [] {
      if Due(todo[0], live) {
        var next := PollBuild(t, todo[0].pkg, now);
        OneAdded(t, todo[0].pkg, now);
        PassAdds(next, todo[1..], live, now);
      } else {
        PassAdds(t, todo[1..], live, now);
      }
    }
  }

  /** A package gets one exactly when it is due. */
  lemma {:induction false} PassFacts(t: Tables, todo: seq<Polled>, live: set<PkgId>, now: int, p: PkgId)
    requires TablesOk(t) && AllStored(t, todo)
    ensures QueuedNew(t.builds, AfterPass(t, todo, live, now).builds, p) <==> DueIn(todo, live, p)
    decreases |todo|
  {
    if todo != [] {
      var next := if Due(todo[0], live) then PollBuild(t, todo[0].pkg, now) else t;
      if Due(todo[0], live) {
        InsertKeepsOk(t, todo[0].pkg, Poll, Default, now);
      }
      PassFacts(next, todo[1..], live, now, p);
      PassAdds(next, todo[1..], live, now);
      DueTail(todo, live, p);
      NewTail(t, next, AfterPass(next, todo[1..], live, now), Due(todo[0], live), todo[0].pkg, now, p);
    }
  }

  lemma DueTail(todo: seq<Polled>, live: set<PkgId>, p: PkgId)
    requires todo != []
    ensures DueIn(todo, live, p) <==> (todo[0].pkg == p && Due(todo[0], live)) || DueIn(todo[1..], live, p)
  {
    if DueIn(todo[1..], live, p) {
      var i :| 0 <= i < |todo[1..]| && todo[1..][i].pkg == p && Due(todo[1..][i], live);
      assert todo[i + 1] == todo[1..][i];
    }
    if DueIn(todo, live, p) && !(todo[0].pkg == p && Due(todo[0], live)) {
      var i :| 0 <= i < |todo| && todo[i].pkg == p && Due(todo[i], live);
      assert todo[1..][i - 1] == todo[i];
    }
  }

  lemma NewTail(t: Tables, next: Tables, t': Tables, due: bool, q: PkgId, now: int, p: PkgId)
    requires IdsBelow(t.builds, t.nextBuildId)
    requires next == if due then PollBuild(t, q, now) else t
    requires forall b | b in next.builds :: b in t'.builds && t'.builds[b] == next.builds[b]
    ensures QueuedNew(t.builds, t'.builds, p) <==> (due && q == p) || QueuedNew(next.builds, t'.builds, p)
  {
    if due && q == p {
      assert LivePoll(t'.builds, t.nextBuildId);
    }
    if QueuedNew(t.builds, t'.builds, p) && !(due && q == p) {
      var c :| c !in t.builds && LivePoll(t'.builds, c) && t'.builds[c].pkg == p;
      assert c !in next.builds;
    }
    if QueuedNew(next.builds, t'.builds, p) {
      var c :| c !in next.builds && LivePoll(t'.builds, c) && t'.builds[c].pkg == p;
      assert c !in t.builds;
    }
  }

  // -------- twice --------

  /** The build is among the newest thousand of its status. */
  ghost predicate InSnapshot(t: Tables, b: BuildId) {
    b in t.builds && t.builds[b].status.Live() && b in ListBuilds(t.builds, t.builds[b].status, 1000)
  }

  lemma SeenIff(t: Tables, p: PkgId)
    ensures p in SeenLive(t) <==> exists b :: InSnapshot(t, b) && t.builds[b].pkg == p
  {
    ListBuildsSpec(t.builds, Queued, POLL_LIMIT);
    ListBuildsSpec(t.builds, Running, POLL_LIMIT);
    if p in LivePackages(t, Queued) {
      var b :| b in ListBuilds(t.builds, Queued, POLL_LIMIT) && t.builds[b].pkg == p;
      assert InSnapshot(t, b);
    }
    if p in LivePackages(t, Running) {
      var b :| b in ListBuilds(t.builds, Running, POLL_LIMIT) && t.builds[b].pkg == p;
      assert InSnapshot(t, b);
    }
  }

  lemma ListedDue(t: Tables, todo: seq<Polled>, live: set<PkgId>, p: PkgId)
    requires IsPackageList(t, todo) && p in t.packages
    ensures DueIn(todo, live, p) <==> t.packages[p].autoRebuild && p !in live
  {
    var i :| 0 <= i < |todo| && todo[i].pkg == p;
    assert todo[i].autoRebuild == t.packages[p].autoRebuild;
  }

  /**
   A pass in which every ref has advanced queues a build for a package exactly when none of the
   package's live builds is among the newest thousand of its status at the time of the snapshots.
   In particular a live poll build that they miss gets a second one.
   */
  lemma MissedBuildIsQueuedAgain(t: Tables, todo: seq<Polled>, now: int, p: PkgId)
    requires TablesOk(t) && IsPackageList(t, todo)
    requires p in t.packages && t.packages[p].autoRebuild
    ensures var t' := AfterPass(t, todo, SeenLive(t), now);
            && TablesOk(t')
            && (forall b | b in t.builds :: b in t'.builds && t'.builds[b] == t.builds[b])
            && (QueuedNew(t.builds, t'.builds, p) <==> !exists b :: InSnapshot(t, b) && t.builds[b].pkg == p)
  {
    PassAdds(t, todo, SeenLive(t), now);
    PassFacts(t, todo, SeenLive(t), now, p);
    ListedDue(t, todo, SeenLive(t), p);
    SeenIff(t, p);
  }

  /** For a package with one live build, from the poller: it gets a second one iff that one is missed. */
  lemma SecondPollBuildIff(t: Tables, todo: seq<Polled>, now: int, b: BuildId)
    requires TablesOk(t) && IsPackageList(t, todo)
    requires LivePoll(t.builds, b) && t.packages[t.builds[b].pkg].autoRebuild
    requires forall c | c in t.builds && t.builds[c].status.Live() && t.builds[c].pkg == t.builds[b].pkg :: c == b
    ensures QueuedNew(t.builds, AfterPass(t, todo, SeenLive(t), now).builds, t.builds[b].pkg) <==>
              b !in ListBuilds(t.builds, t.builds[b].status, 1000)
  {
    MissedBuildIsQueuedAgain(t, todo, now, t.builds[b].pkg);
  }
}
