/**
 The daemon's shared state (`AppState`) with the worker of paur-daemon/src/worker.rs and the
 handlers of paur-daemon/src/api.rs, each run without interruption. `Refinement` relates the
 worker to the interleaved `Protocol`.
 */
module Daemon {
  import opened Options
  import opened Variants
  import opened Schema
  import opened Protocol
  import opened Database
  import opened Completeness

  // -------- what the outside world does --------

  /** What the container does: it cannot be run, or it ends after printing some lines. */
  datatype ContainerRun = Refused | Ran(out: Outcome, lines: seq<string>, listed: bool)

  /** What publishing gives: a failure, files without a known version, or a file and version. */
  datatype Publication = Unpublished | Unnamed | Named(file: string, version: string)

  /** Whether `process_one` gets past the container; artifacts are listed only after a success. */
  predicate Completes(run: ContainerRun) {
    run.Ran? && (FinalStatus(run.out).Success? ==> run.listed)
  }

  // -------- what one build does to the tables --------

  type Log = map<nat, LogLine>

  /** The log has the line under number `k`, without line ends and otherwise unchanged. */
  predicate IsStored(log: Log, k: nat, line: string) {
    && k in log && log[k].stream.Stdout? && NoLineEnds(log[k].line)
    && (NoLineEnds(line) ==> log[k].line == line)
  }

  ghost function Logged(t: Tables, id: BuildId, lines: seq<string>, now: int): Tables {
    if lines == [] then t
    else
      var before := Logged(t, id, lines[..|lines| - 1], now);
      if id in before.logs then
        InsertLog(before, id, NextLogSeq(before, id), LogLine(Stdout, Stripped(lines[|lines| - 1]), now))
      else before
  }

  /** The final status, and the published file if there is one. */
  ghost function Concluded(t: Tables, id: BuildId, out: Outcome, pub: Publication, now: int): Tables {
    var finished := Finish(t, id, FinalStatus(out), FinalExitCode(out), now);
    if FinalStatus(out).Success? && pub.Named? then Record(finished, id, pub.file, pub.version) else finished
  }

  /** What a claimed build does: its output, then, if it completes, its end. */
  ghost function AfterClaim(t: Tables, id: BuildId, run: ContainerRun, pub: Publication, now: int): Tables {
    if run.Refused? then t
    else
      var logged := Logged(t, id, run.lines, now);
      if Completes(run) then Concluded(logged, id, run.out, pub, now) else logged
  }

  ghost function AfterBuild(t: Tables, id: BuildId, run: ContainerRun, pub: Publication, now: int): Tables {
    AfterClaim(Claim(t, id, WORKER_ID, now), id, run, pub, now)
  }

  /** What handling one received id does: a build that is not queued is skipped. */
  ghost function Processed(t: Tables, id: BuildId, run: ContainerRun, pub: Publication, now: int): Tables {
    if IsQueued(t, id) then AfterBuild(t, id, run, pub, now) else t
  }

  ghost function AfterAll(t: Tables, ids: seq<BuildId>, run: BuildId -> ContainerRun, pub: BuildId -> Publication, now: int): Tables {
    if ids == [] then t
    else
      var last := ids[|ids| - 1];
      Processed(AfterAll(t, ids[..|ids| - 1], run, pub, now), last, run(last), pub(last), now)
  }

  lemma {:induction false} LoggedFacts(t: Tables, id: BuildId, lines: seq<string>, now: int)
    requires TablesOk(t)
    ensures var t' := Logged(t, id, lines, now);
            && TablesOk(t') && t'.builds == t.builds && t'.packages == t.packages && t'.nextBuildId == t.nextBuildId
            && t'.logs.Keys == t.logs.Keys && (forall b | b in t.logs && b != id :: t'.logs[b] == t.logs[b])
  {
    if lines != [] {
      LoggedFacts(t, id, lines[..|lines| - 1], now);
    }
  }

  lemma NextAfterInsert(t: Tables, id: BuildId, line: LogLine)
    requires id in t.logs
    ensures NextLogSeq(InsertLog(t, id, NextLogSeq(t, id), line), id) == NextLogSeq(t, id) + 1
  {
    var after := InsertLog(t, id, NextLogSeq(t, id), line);
    assert after.logs[id].Keys == t.logs[id].Keys + {NextLogSeq(t, id)};
  }

  /** What the log had is below number `n`, and still there. */
  predicate KeepsBelow(before: Log, after: Log, n: nat) {
    forall k | k in before :: k < n && k in after && after[k] == before[k]
  }

  /** From number `n` on the log has these lines, in order, and nothing after them. */
  ghost predicate HasFrom(log: Log, n: nat, lines: seq<string>, now: int) {
    && (forall k | k in log :: k < n + |lines|)
    && forall k: nat | k < |lines| :: LineAt(log, n + k, lines[k], now)
  }

  predicate LineAt(log: Log, k: nat, line: string, now: int) {
    IsStored(log, k, line) && log[k].ts == now
  }

  lemma OneMoreLine(before: Log, log: Log, n: nat, lines: seq<string>, line: string, now: int)
    requires KeepsBelow(before, log, n) && HasFrom(log, n, lines, now)
    ensures var more := log[n + |lines| := LogLine(Stdout, Stripped(line), now)];
            KeepsBelow(before, more, n) && HasFrom(more, n, lines + [line], now)
  {
    StrippedIs(line);
    var more := log[n + |lines| := LogLine(Stdout, Stripped(line), now)];
    forall k: nat | k < |lines| + 1
      ensures LineAt(more, n + k, (lines + [line])[k], now)
    {
      if k < |lines| {
        assert LineAt(log, n + k, lines[k], now);
      }
    }
  }

  /** The log of the build has grown by the lines, from number `n` on. */
  ghost predicate HasGrown(t: Tables, t': Tables, id: BuildId, n: nat, lines: seq<string>, now: int) {
    && id in t.logs && id in t'.logs && NextLogSeq(t', id) == n + |lines|
    && KeepsBelow(t.logs[id], t'.logs[id], n) && HasFrom(t'.logs[id], n, lines, now)
  }

  lemma GrowsByOne(t: Tables, before: Tables, id: BuildId, n: nat, lines: seq<string>, line: string, now: int)
    requires HasGrown(t, before, id, n, lines, now)
    ensures HasGrown(t, InsertLog(before, id, NextLogSeq(before, id), LogLine(Stdout, Stripped(line), now)), id, n, lines + [line], now)
  {
    NextAfterInsert(before, id, LogLine(Stdout, Stripped(line), now));
    OneMoreLine(t.logs[id], before.logs[id], n, lines, line, now);
  }

  lemma NothingLogged(t: Tables, id: BuildId, now: int)
    requires id in t.logs
    ensures HasGrown(t, t, id, NextLogSeq(t, id), [], now)
  {
  }

  /** The output is stored behind what was there, line by line and in order. */
  lemma {:induction false} OutputIsStored(t: Tables, id: BuildId, lines: seq<string>, now: int)
    requires id in t.logs
    ensures HasGrown(t, Logged(t, id, lines, now), id, NextLogSeq(t, id), lines, now)
  {
    if lines == [] {
      NothingLogged(t, id, now);
    } else {
      var front, last := lines[..|lines| - 1], lines[|lines| - 1];
      OutputIsStored(t, id, front, now);
      GrowsByOne(t, Logged(t, id, front, now), id, NextLogSeq(t, id), front, last, now);
      assert front + [last] == lines;
    }
  }

  /**
   How a build ends: cancelled without an exit code, or by its container's code, with the published
   file and version if both are known; or still running after an error.
   */
  predicate EndsLike(r: BuildRow, run: ContainerRun, pub: Publication) {
    && (!Completes(run) ==> r.status.Running? && r.exitCode.None?)
    && (Completes(run) ==>
          if run.out.cancelled then r.status.Cancelled? && r.exitCode.None?
          else r.exitCode == Some(run.out.code) && r.status == if run.out.code == 0 then Success else Failed)
    && (if r.status.Success? && pub.Named?
        then r.pkgFile == Some(pub.file) && r.pkgVersion == Some(pub.version)
        else r.pkgFile.None? && r.pkgVersion.None?)
  }

  /** Who built it, and when. */
  predicate BuiltAt(r: BuildRow, run: ContainerRun, now: int) {
    && r.workerId == Some("paur-worker") && r.startedAt == Some(now)
    && r.finishedAt == if Completes(run) then Some(now) else None
  }

  lemma ConcludedFacts(t: Tables, id: BuildId, out: Outcome, pub: Publication, now: int)
    requires TablesOk(t)
    requires id in t.builds && t.builds[id].status.Running?
    ensures var t' := Concluded(t, id, out, pub, now);
            && TablesOk(t') && t' == t.(builds := t.builds[id := t'.builds[id]])
            && SameBuild(t.builds[id], t'.builds[id]) && EndsLike(t'.builds[id], Ran(out, [], true), pub)
            && t'.builds[id].finishedAt == Some(now)
            && t'.builds[id].startedAt == t.builds[id].startedAt && t'.builds[id].workerId == t.builds[id].workerId
  {
    var t' := Concluded(t, id, out, pub, now);
    UpdateKeepsOk(t, id, t'.builds[id]);
    assert t'.builds == t.builds[id := t'.builds[id]];
    assert t' == WithRow(t, id, t'.builds[id]);
  }

  /** What a build leaves behind; no other row and no other log is touched. */
  lemma AfterBuildFacts(t: Tables, id: BuildId, run: ContainerRun, pub: Publication, now: int)
    requires TablesOk(t) && IsQueued(t, id)
    ensures var t' := AfterBuild(t, id, run, pub, now);
            && TablesOk(t')
            && t'.packages == t.packages && t'.nextBuildId == t.nextBuildId && t'.builds.Keys == t.builds.Keys
            && (forall b | b in t.builds && b != id :: t'.builds[b] == t.builds[b] && t'.logs[b] == t.logs[b])
            && SameBuild(t.builds[id], t'.builds[id]) && EndsLike(t'.builds[id], run, pub) && BuiltAt(t'.builds[id], run, now)
  {
    var claimed := Claim(t, id, WORKER_ID, now);
    UpdateKeepsOk(t, id, claimed.builds[id]);
    if run.Ran? {
      LoggedFacts(claimed, id, run.lines, now);
      var logged := Logged(claimed, id, run.lines, now);
      if Completes(run) {
        ConcludedFacts(logged, id, run.out, pub, now);
      }
    }
  }

  /**
   After the ids of any list, with or without repetitions: the builds among them that were queued
   have ended, each like its own container, and every other row is as it was.
   */
  lemma {:induction false} AfterAllFacts(t: Tables, ids: seq<BuildId>, run: BuildId -> ContainerRun, pub: BuildId -> Publication, now: int)
    requires TablesOk(t)
    ensures var t' := AfterAll(t, ids, run, pub, now);
            && TablesOk(t') && t'.builds.Keys == t.builds.Keys
            && (forall b | b in t.builds && b in ids && IsQueued(t, b) :: EndsLike(t'.builds[b], run(b), pub(b)))
            && (forall b | b in t.builds && !(b in ids && IsQueued(t, b)) :: t'.builds[b] == t.builds[b])
  {
    if ids != [] {
      var last := ids[|ids| - 1];
      var front := ids[..|ids| - 1];
      assert ids == front + [last];
      AfterAllFacts(t, front, run, pub, now);
      var before := AfterAll(t, front, run, pub, now);
      if IsQueued(before, last) {
        AfterBuildFacts(before, last, run(last), pub(last), now);
      }
    }
  }

  /**
   Recovery from a crash: with at most 10,000 queued builds nothing is queued afterwards; of more,
   exactly 10,000 were taken, and what is still queued is older than everything that was built. What runs had no completed
   container, and what ran before the crash has failed with exit code -1.
   */
  ghost predicate RecoveredFrom(t: Tables, t': Tables, run: BuildId -> ContainerRun) {
    && t'.builds.Keys == t.builds.Keys
    && (|WithStatus(t.builds, Queued)| <= 10000 ==> forall b | b in t'.builds :: !t'.builds[b].status.Queued?)
    && (|WithStatus(t.builds, Queued)| > 10000 ==> |WithStatus(t'.builds, Queued)| == |WithStatus(t.builds, Queued)| - 10000)
    && (forall b, c | IsQueued(t, b) && IsQueued(t, c) && IsQueued(t', b) && !IsQueued(t', c) :: Before(t.builds, c, b))
    && (forall b | b in t'.builds && t'.builds[b].status.Running? :: IsQueued(t, b) && !Completes(run(b)))
    && (forall b | b in t.builds && t.builds[b].status.Running? ::
          t'.builds[b].status == Status.Failed && t'.builds[b].exitCode == Some(-1))
    && (forall b | b in t.builds && !t.builds[b].status.Live() :: t'.builds[b] == t.builds[b])
  }

  function Members(ids: seq<BuildId>): set<BuildId> {
    set b | b in ids
  }

  lemma {:induction false} AllDifferent(ids: seq<BuildId>)
    requires forall a, b | 0 <= a < b < |ids| :: ids[a] != ids[b]
    ensures |Members(ids)| == |ids|
  {
    if ids != [] {
      var front, last := ids[..|ids| - 1], ids[|ids| - 1];
      AllDifferent(front);
      assert Members(ids) == Members(front) + {last};
      assert last !in Members(front);
    }
  }

  /** The ids are all queued builds if they fit the scan, and otherwise those that come first in its order. */
  ghost predicate TakesNewest(t: Tables, ids: seq<BuildId>) {
    && (|WithStatus(t.builds, Queued)| <= 10000 ==> forall b | IsQueued(t, b) :: b in ids)
    && (|WithStatus(t.builds, Queued)| > 10000 ==> |Members(ids)| == 10000)
    && (forall b | b in ids :: IsQueued(t, b))
    && (forall b, c | IsQueued(t, b) && IsQueued(t, c) && b !in ids && c in ids :: Before(t.builds, c, b))
  }

  lemma ScanTakesNewest(t: Tables, ids: seq<BuildId>, now: int)
    requires IsNewest(Reap(t, now).builds, Queued, SCAN_LIMIT, ids)
    ensures TakesNewest(t, ids)
  {
    var reaped := Reap(t, now);
    assert WithStatus(reaped.builds, Queued) == WithStatus(t.builds, Queued);
    forall a, b | 0 <= a < b < |ids|
      ensures ids[a] != ids[b]
    {
      assert Before(reaped.builds, ids[a], ids[b]);
    }
    AllDifferent(ids);
    forall b, c | IsQueued(t, b) && IsQueued(t, c) && b !in ids && c in ids
      ensures Before(t.builds, c, b)
    {
      assert Before(reaped.builds, c, b);
    }
  }

  /** The given builds have ended, each like its container, and every other row is as the reap left it. */
  ghost predicate EachEnded(t: Tables, t': Tables, ids: seq<BuildId>, run: BuildId -> ContainerRun, pub: BuildId -> Publication, now: int) {
    && t'.builds.Keys == t.builds.Keys
    && forall b | b in t.builds ::
         if b in ids then EndsLike(t'.builds[b], run(b), pub(b)) else t'.builds[b] == ReapRow(t.builds[b], now)
  }

  lemma AfterAllDrains(t: Tables, ids: seq<BuildId>, run: BuildId -> ContainerRun, pub: BuildId -> Publication, now: int)
    requires TablesOk(Reap(t, now))
    requires forall b | b in ids :: IsQueued(t, b)
    ensures TablesOk(AfterAll(Reap(t, now), ids, run, pub, now))
    ensures EachEnded(t, AfterAll(Reap(t, now), ids, run, pub, now), ids, run, pub, now)
  {
    AfterAllFacts(Reap(t, now), ids, run, pub, now);
    assert forall b | b in ids :: IsQueued(Reap(t, now), b);
  }

  lemma RecoveryFacts(t: Tables, ids: seq<BuildId>, run: BuildId -> ContainerRun, pub: BuildId -> Publication, now: int)
    requires TablesOk(Reap(t, now))
    requires IsNewest(Reap(t, now).builds, Queued, SCAN_LIMIT, ids)
    ensures TablesOk(AfterAll(Reap(t, now), ids, run, pub, now))
    ensures RecoveredFrom(t, AfterAll(Reap(t, now), ids, run, pub, now), run)
  {
    ScanTakesNewest(t, ids, now);
    AfterAllDrains(t, ids, run, pub, now);
    RecoveryByRow(t, AfterAll(Reap(t, now), ids, run, pub, now), ids, run, pub, now);
  }

  lemma RecoveryByRow(t: Tables, t': Tables, ids: seq<BuildId>, run: BuildId -> ContainerRun, pub: BuildId -> Publication, now: int)
    requires TakesNewest(t, ids) && EachEnded(t, t', ids, run, pub, now)
    ensures RecoveredFrom(t, t', run)
  {
    forall b | b in t.builds
      ensures IsQueued(t', b) <==> IsQueued(t, b) && b !in ids
    {
    }
    assert WithStatus(t'.builds, Queued) == WithStatus(t.builds, Queued) - Members(ids);
    assert Members(ids) <= WithStatus(t.builds, Queued);
  }

  // -------- requests --------

  datatype ApiError = NoSuchPackage | BadVariant(tag: string) | DatabaseError

  /** The requests that change packages. */
  datatype Request =
    | Add(name: string, autoRebuild: bool, tags: seq<string>)
    | ChangeVariants(name: string, tags: seq<string>)
    | Rebuild(name: string)
    | Remove(name: string)

  datatype Answer = Served | NotServed(error: ApiError)

  /** Answers after which completeness is not in doubt. */
  predicate Harmless(request: Request, answer: Answer) {
    && (request.Add? ==> answer.Served?)
    && (request.ChangeVariants? ==> answer != NotServed(DatabaseError))
  }

  /** The statements that put a package row into a reply. */
  const REPLY_READS: nat := 4

  class AppState {
    const db: Db
    /** The ids sent to the worker so far. */
    var wake: seq<BuildId>
    /** The keys of `cancel_tokens` and of `log_channels`. */
    var tokens: set<BuildId>
    var channels: set<BuildId>

    constructor (db: Db)
      ensures this.db == db && wake == [] && tokens == {} && channels == {}
    {
      this.db := db;
      wake, tokens, channels := [], {}, {};
    }

    ghost predicate Valid()
      reads this, db
    {
      TablesOk(db.View()) && NamesDistinct(db.packages)
    }

    // -------- the worker --------

    /**
     The log sink: one line goes to the table and, if that worked, to the channel. A line without
     carriage returns and line feeds is stored as it is.
     */
    method WriteLine(id: BuildId, line: string, now: int)
      requires TablesOk(db.View())
      modifies this`channels, db`logs
      ensures TablesOk(db.View())
      ensures db.View() == if id in old(db.logs)
                           then InsertLog(old(db.View()), id, NextLogSeq(old(db.View()), id), LogLine(Stdout, Stripped(line), now))
                           else old(db.View())
      ensures id in old(db.logs) ==> IsStored(db.logs[id], NextLogSeq(old(db.View()), id), line)
      ensures channels == if id in old(db.logs) then old(channels) + {id} else old(channels)
    {
      StrippedIs(line);
      var ok := db.AppendLog(id, Stdout, Stripped(line), now);
      if ok {
        channels := channels + {id};
      }
    }

    /** The container's output, line by line, through the sink. */
    method WriteLines(id: BuildId, lines: seq<string>, now: int)
      requires TablesOk(db.View())
      modifies this`channels, db`logs
      ensures TablesOk(db.View())
      ensures db.View() == Logged(old(db.View()), id, lines, now)
      ensures channels - {id} == old(channels) - {id}
    {
      ghost var t := db.View();
      for i := 0 to |lines|
        invariant TablesOk(db.View())
        invariant db.View() == Logged(t, id, lines[..i], now)
        invariant channels - {id} == old(channels) - {id}
      {
        assert lines[..i + 1][..i] == lines[..i];
        WriteLine(id, lines[i], now);
      }
      assert lines[..|lines|] == lines;
    }

    /** The stamp of the final status and, after a publication, of the file. */
    method Conclude(id: BuildId, out: Outcome, pub: Publication, now: int)
      requires TablesOk(db.View())
      requires id in db.builds && db.builds[id].status.Running?
      modifies db`builds
      ensures TablesOk(db.View())
      ensures db.View() == Concluded(old(db.View()), id, out, pub, now)
    {
      db.FinishBuild(id, FinalStatus(out), FinalExitCode(out), now);
      if FinalStatus(out).Success? && pub.Named? {
        db.RecordPkg(id, pub.file, pub.version);
      }
    }

    /**
     One build from claim to clean-up. A build that is not queued is skipped. Otherwise the tables
     end as `AfterBuild` says. When no error is returned neither its token nor its channel is left
     behind; an error leaves the token.
     */
    method ProcessOne(id: BuildId, run: ContainerRun, pub: Publication, now: int) returns (ok: bool)
      requires TablesOk(db.View())
      modifies this`tokens, this`channels, db`builds, db`logs
      ensures TablesOk(db.View())
      ensures db.View() == Processed(old(db.View()), id, run, pub, now)
      ensures ok <==> !IsQueued(old(db.View()), id) || Completes(run)
      ensures !IsQueued(old(db.View()), id) ==> tokens == old(tokens) && channels == old(channels)
      ensures IsQueued(old(db.View()), id) && ok ==> tokens == old(tokens) - {id} && channels == old(channels) - {id}
      ensures !ok ==> tokens == old(tokens) + {id} && channels - {id} == old(channels) - {id}
      ensures IsQueued(old(db.View()), id) ==> id in db.builds && EndsLike(db.builds[id], run, pub)
      ensures forall b | b in old(db.builds) && b != id :: b in db.builds && db.builds[b] == old(db.builds)[b]
    {
      if IsQueued(db.View(), id) {
        AfterBuildFacts(db.View(), id, run, pub, now);
      }
      var claimed := db.ClaimBuildById(id, WORKER_ID, now);
      if !claimed {
        return true;
      }
      ok := BuildClaimed(id, run, pub, now);
    }

    method BuildClaimed(id: BuildId, run: ContainerRun, pub: Publication, now: int) returns (ok: bool)
      requires TablesOk(db.View())
      requires id in db.builds && db.builds[id].status.Running?
      modifies this`tokens, this`channels, db`builds, db`logs
      ensures TablesOk(db.View())
      ensures db.View() == AfterClaim(old(db.View()), id, run, pub, now)
      ensures ok <==> Completes(run)
      ensures ok ==> tokens == old(tokens) - {id} && channels == old(channels) - {id}
      ensures !ok ==> tokens == old(tokens) + {id} && channels - {id} == old(channels) - {id}
    {
      ghost var t := db.View();
      tokens := tokens + {id};
      if run.Refused? {
        return false;
      }
      WriteLines(id, run.lines, now);
      if FinalStatus(run.out).Success? && !run.listed {
        return false;
      }
      tokens := tokens - {id};
      LoggedFacts(t, id, run.lines, now);
      Conclude(id, run.out, pub, now);
      channels := channels - {id};
      return true;
    }

    /** The receive loop over the ids in the channel. */
    method RunWorker(ids: seq<BuildId>, run: BuildId -> ContainerRun, pub: BuildId -> Publication, now: int)
      requires TablesOk(db.View())
      modifies this`tokens, this`channels, db`builds, db`logs
      ensures TablesOk(db.View())
      ensures db.View() == AfterAll(old(db.View()), ids, run, pub, now)
    {
      for i := 0 to |ids|
        invariant TablesOk(db.View())
        invariant db.View() == AfterAll(old(db.View()), ids[..i], run, pub, now)
      {
        assert ids[..i + 1][..i] == ids[..i];
        var ok := ProcessOne(ids[i], run(ids[i]), pub(ids[i]), now);
      }
      assert ids[..|ids|] == ids;
    }

    /** Start-up after a crash: reap, scan, and the worker on what the scan found. */
    method Recover(run: BuildId -> ContainerRun, pub: BuildId -> Publication, now: int)
      requires TablesOk(db.View())
      modifies this`tokens, this`channels, db`builds, db`logs
      ensures TablesOk(db.View())
      ensures RecoveredFrom(old(db.View()), db.View(), run)
    {
      ghost var t := db.View();
      db.ReapStaleRunning(now);
      var ids := db.ListBuildsBy(Queued, SCAN_LIMIT);
      RunWorker(ids, run, pub, now);
      RecoveryFacts(t, ids, run, pub, now);
    }

    /**
     The cancel handler: a granted cancel also takes the token out of the registry and fires it;
     a refused one changes nothing.
     */
    method CancelRequest(id: BuildId, now: int) returns (outcome: CancelOutcome, fired: bool)
      requires TablesOk(db.View())
      modifies this`tokens, db`builds
      ensures TablesOk(db.View())
      ensures outcome == CancelOutcomeOf(old(db.View()), id)
      ensures db.View() == Cancel(old(db.View()), id, now)
      ensures outcome.WasCancelled? ==> tokens == old(tokens) - {id} && (fired <==> id in old(tokens))
      ensures !outcome.WasCancelled? ==> db.View() == old(db.View()) && tokens == old(tokens) && !fired
    {
      outcome := db.CancelBuild(id, now);
      fired := false;
      if outcome.WasCancelled? {
        fired := id in tokens;
        tokens := tokens - {id};
      }
    }

    // -------- the package handlers --------

    // The database can refuse any statement, above all the insert of an `enqueue_build` that lost
    // against another commit. A handler stops at the first refusal, so all that matters is how
    // many of its statements go `through`.

    /** One more build, unless it is refused. */
    method EnqueueNext(p: PkgId, v: Variant, trigger: Trigger, now: int, refused: bool) returns (id: Option<BuildId>)
      requires TablesOk(db.View())
      modifies db
      ensures TablesOk(db.View()) && db.packages == old(db.packages)
      ensures id == if p in old(db.packages) && !refused then Some(old(db.nextBuildId)) else None
      ensures db.View() == if id.None? then old(db.View()) else QueuedOne(old(db.View()), p, v, trigger, now)
    {
      var r := db.EnqueueBuild(p, trigger, v, now, refused);
      return if r.Ok? then Some(r.value) else None;
    }

    /** One build for each active variant up to the first refusal; the first one is woken if there is none. */
    method EnqueueAllVariants(p: PkgId, active: seq<Variant>, trigger: Trigger, now: int, through: nat) returns (queued: nat)
      requires TablesOk(db.View())
      modifies this`wake, db
      ensures TablesOk(db.View()) && db.packages == old(db.packages)
      ensures queued == Queueable(old(db.View()), p, |active|, through)
      ensures db.View() == EnqueueAll(old(db.View()), p, active[..queued], trigger, now)
      ensures wake == if queued == |active| && active != [] then old(wake) + [old(db.nextBuildId)] else old(wake)
    {
      ghost var t := db.View();
      var firstId: Option<BuildId> := None;
      for i := 0 to |active|
        invariant i <= Queueable(t, p, |active|, through)
        invariant TablesOk(db.View()) && db.packages == t.packages
        invariant db.View() == EnqueueAll(t, p, active[..i], trigger, now)
        invariant firstId == if i == 0 then None else Some(t.nextBuildId)
        invariant wake == old(wake)
      {
        var id := EnqueueNext(p, active[i], trigger, now, through <= i);
        if id.None? {
          return i;
        }
        OneMoreOf(t, p, active, i, trigger, now);
        if firstId.None? {
          firstId := id;
        }
      }
      if firstId.Some? {
        wake := wake + [firstId.value];
      }
      return |active|;
    }

    /**
     Adds a package or extends an existing one, and builds all its active variants. The row is
     written before the tags are looked at, and the variants before any build is queued. If every
     active variant of every package had a build before, this is still so afterwards exactly when
     nothing was stored, or only the row of a known package was touched, or each desired variant
     had a build or got one before the first refusal.
     */
    method AddPackage(name: string, autoRebuild: bool, tags: seq<string>, now: int, through: nat) returns (r: Result<PkgId, ApiError>)
      requires Valid()
      modifies this`wake, db
      ensures Valid()
      ensures var active := Tagged(tags).Active(); r.Ok? <==> AllKnown(tags) && through >= 4 + |active| + REPLY_READS
      ensures r.Ok? ==> IdOf(db.packages, name) == Some(r.value) && db.packages[r.value].variants == Tagged(tags)
      ensures r.Ok? ==> wake == old(wake) + [old(db.nextBuildId)]
      ensures r.Err? ==> if through >= 2 && !AllKnown(tags) then r.error.BadVariant? && FirstUnknown(tags, r.error.tag)
                         else r.error.DatabaseError?
      ensures KeepsBuilds(old(db.View()), db.View())
      ensures AllBuilt(old(db.View())) ==>
                (AllBuilt(db.View()) <==>
                 if !AllKnown(tags) || through <= 2 then through == 0 || Known(old(db.packages), name)
                 else AddedWhole(old(db.View()), name, Tagged(tags), Left(through, 4)))
    {
      ghost var was := db.View();
      if through == 0 {
        return Err(DatabaseError);
      }
      var p := StoreRow(name, autoRebuild);
      ghost var stored := db.View();
      // The statement that reads the id back.
      if through == 1 {
        return Err(DatabaseError);
      }
      var parsed := ParseVariantsField(tags);
      if parsed.Err? {
        return Err(BadVariant(parsed.error));
      }
      r := FinishAdd(p, name, parsed.value, now, through - 2);
      StillNamed(was, stored, p, name, Tagged(tags), Left(through, 4));
    }

    /** The upsert, and what it means for completeness. */
    method StoreRow(name: string, autoRebuild: bool) returns (p: PkgId)
      requires Valid()
      modifies db`packages
      ensures Valid()
      ensures IdOf(db.packages, name) == Some(p) && (p in old(db.packages) <==> Known(old(db.packages), name))
      ensures p in old(db.packages) ==> old(db.packages)[p].name == name
      ensures RowStored(old(db.View()), db.View(), p)
    {
      ghost var was := db.View();
      p := db.UpsertPackage(name, autoRebuild);
      Upserted(was, db.View(), p);
      IdIs(db.packages, name, p);
    }

    /**
     `add_package` from `set_variants` on, for the id `p` that it got from the upsert. Other
     requests may have come in between: the name may belong to another package by now, or to none.
     */
    method FinishAdd(p: PkgId, name: string, desired: PackageVariants, now: int, through: nat) returns (r: Result<PkgId, ApiError>)
      requires Valid() && desired.default
      modifies this`wake, db
      ensures Valid()
      ensures KeepsBuilds(old(db.View()), db.View())
      ensures var q, active := IdOf(old(db.packages), name), desired.Active();
              var k := Queueable(old(db.View()), p, |active|, Left(through, 2));
              if through == 0 || q.None? then r.Err? && db.View() == old(db.View()) && wake == old(wake)
              else
                && StoredAndQueued(old(db.View()), db.View(), q.value, desired, p, active[..k], now)
                && IdOf(db.packages, name) == q
                && wake == (if k == |active| && through >= 2 then old(wake) + [old(db.nextBuildId)] else old(wake))
                && (r.Ok? <==> k == |active| && through >= 2 + k + REPLY_READS) && (r.Ok? ==> r.value == q.value)
      ensures r.Err? ==> r.error == if through > 0 && IdOf(old(db.packages), name).None? then NoSuchPackage else DatabaseError
    {
      ghost var was := db.View();
      if through == 0 {
        return Err(DatabaseError);
      }
      var found := db.SetVariants(name, desired);
      if found.None? {
        return Err(NoSuchPackage);
      }
      StoredUnderName(was, found.value, name, desired);
      ghost var k := Queueable(was, p, |desired.Active()|, Left(through, 2));
      StoredFacts(was, found.value, desired, p, desired.Active()[..k], now);
      assert db.View() == WithVariants(was, found.value, desired);
      assert Default in desired.Active();
      var done := QueueAndReply(p, desired.Active(), now, through - 1);
      assert db.View() == EnqueueAll(WithVariants(was, found.value, desired), p, desired.Active()[..k], Manual, now);
      return if done then Ok(found.value) else Err(DatabaseError);
    }

    /** Reads the package back, queues its builds, and reads what the reply needs. */
    method QueueAndReply(p: PkgId, active: seq<Variant>, now: int, through: nat) returns (done: bool)
      requires TablesOk(db.View())
      modifies this`wake, db
      ensures TablesOk(db.View()) && db.packages == old(db.packages)
      ensures var k := Queueable(old(db.View()), p, |active|, Left(through, 1));
              && db.View() == EnqueueAll(old(db.View()), p, active[..k], Manual, now)
              && (done <==> k == |active| && through >= 1 + k + REPLY_READS)
              && wake == if k == |active| && active != [] && through > 0 then old(wake) + [old(db.nextBuildId)] else old(wake)
    {
      if through == 0 {
        return false;
      }
      var queued := EnqueueAllVariants(p, active, Manual, now, through - 1);
      return queued == |active| && through >= 1 + queued + REPLY_READS;
    }

    /** One build for each newly active variant up to the first refusal; every one is woken. */
    method EnqueueNewlyActive(p: PkgId, active: seq<Variant>, before: PackageVariants, now: int, through: nat) returns (queued: nat)
      requires TablesOk(db.View())
      modifies this`wake, db
      ensures TablesOk(db.View()) && db.packages == old(db.packages)
      ensures queued == Queueable(old(db.View()), p, |NewlyActive(active, before)|, through)
      ensures db.View() == EnqueueAll(old(db.View()), p, NewlyActive(active, before)[..queued], Manual, now)
      ensures wake == old(wake) + IdsFrom(old(db.nextBuildId), queued)
    {
      ghost var t, woken, newly := db.View(), wake, NewlyActive(active, before);
      queued := 0;
      assert newly[..0] == [] && woken + IdsFrom(t.nextBuildId, 0) == woken;
      for i := 0 to |active|
        invariant queued == |NewlyActive(active[..i], before)| && queued <= Queueable(t, p, |newly|, through)
        invariant TablesOk(db.View()) && db.packages == t.packages && db.nextBuildId == t.nextBuildId + queued
        invariant db.View() == EnqueueAll(t, p, newly[..queued], Manual, now)
        invariant wake == woken + IdsFrom(t.nextBuildId, queued)
      {
        NewlyActiveStep(active, i, before);
        if !before.IsActive(active[i]) {
          var id := EnqueueNext(p, active[i], Manual, now, through <= queued);
          if id.None? {
            return;
          }
          OneMoreOf(t, p, newly, queued, Manual, now);
          OneMoreId(woken, t.nextBuildId, queued);
          wake := wake + [id.value];
          queued := queued + 1;
        }
      }
      assert active[..|active|] == active;
    }

    /**
     Changes the active variants of a package. Without a refusal exactly the newly active ones get
     a build, each of which is woken. Completeness is kept exactly when the variants were not
     stored, or every newly active variant had a build or got one before the first refusal.
     */
    method SetPackageVariants(name: string, tags: seq<string>, now: int, through: nat) returns (r: Result<PkgId, ApiError>)
      requires Valid()
      modifies this`wake, db
      ensures Valid()
      ensures var q, desired := IdOf(old(db.packages), name), Tagged(tags);
              if !AllKnown(tags) || through <= 1 || q.None? then
                r.Err? && db.View() == old(db.View()) && wake == old(wake)
              else
                var newly := NewlyActive(desired.Active(), old(db.packages)[q.value].variants);
                var k := Min(|newly|, through - 2);
                && VariantsChanged(old(db.View()), db.View(), q.value, desired, newly, k, now)
                && wake == old(wake) + IdsFrom(old(db.nextBuildId), k)
                && (r.Ok? <==> through >= 2 + |newly| + 1 + REPLY_READS)
      ensures r.Err? ==> if !AllKnown(tags) then r.error.BadVariant? && FirstUnknown(tags, r.error.tag)
                         else r.error == if through > 0 && IdOf(old(db.packages), name).None? then NoSuchPackage else DatabaseError
      ensures r.Err? && r.error.DatabaseError? ==> through < 2 + 3 + 1 + REPLY_READS
    {
      var parsed := ParseVariantsField(tags);
      if parsed.Err? {
        return Err(BadVariant(parsed.error));
      }
      r := SetDecoded(name, parsed.value, now, through);
    }

    /** The same for a set that was already decoded. */
    method SetDecoded(name: string, desired: PackageVariants, now: int, through: nat) returns (r: Result<PkgId, ApiError>)
      requires Valid() && desired.default
      modifies this`wake, db
      ensures Valid()
      ensures var q := IdOf(old(db.packages), name);
              if through <= 1 || q.None? then
                r.Err? && db.View() == old(db.View()) && wake == old(wake)
              else
                var newly := NewlyActive(desired.Active(), old(db.packages)[q.value].variants);
                var k := Min(|newly|, through - 2);
                && VariantsChanged(old(db.View()), db.View(), q.value, desired, newly, k, now)
                && wake == old(wake) + IdsFrom(old(db.nextBuildId), k)
                && (r.Ok? <==> through >= 2 + |newly| + 1 + REPLY_READS)
      ensures r.Err? ==> r.error == if through > 0 && IdOf(old(db.packages), name).None? then NoSuchPackage else DatabaseError
      ensures r.Err? && r.error.DatabaseError? ==> through < 2 + 3 + 1 + REPLY_READS
    {
      ghost var was := db.View();
      if through == 0 {
        return Err(DatabaseError);
      }
      var cur := db.FindPackage(name);
      if cur.None? {
        return Err(NoSuchPackage);
      }
      IdIs(was.packages, name, cur.value);
      var before := db.packages[cur.value].variants;
      r := ApplyVariants(name, desired, cur.value, before, now, through - 1);
      ghost var newly := NewlyActive(desired.Active(), before);
      NewlyActiveCount(desired, before);
      if through > 1 {
        ghost var k := Min(|newly|, through - 2);
        Changed(was, db.View(), cur.value, desired, newly, k, now);
      }
    }

    /**
     `set_package_variants` from `set_variants` on, for the id `p` and the variants `before` of the
     row that it read earlier. Other requests may have come in between, so that they need not be
     those of the package the UPDATE meets.
     */
    method ApplyVariants(name: string, desired: PackageVariants, p: PkgId, before: PackageVariants, now: int, through: nat)
      returns (r: Result<PkgId, ApiError>)
      requires Valid() && desired.default
      modifies this`wake, db
      ensures Valid()
      ensures var q, newly := IdOf(old(db.packages), name), NewlyActive(desired.Active(), before);
              var k := Queueable(old(db.View()), p, |newly|, Left(through, 1));
              if through == 0 || q.None? then r.Err? && db.View() == old(db.View()) && wake == old(wake)
              else
                && StoredAndQueued(old(db.View()), db.View(), q.value, desired, p, newly[..k], now)
                && wake == old(wake) + IdsFrom(old(db.nextBuildId), k)
                && (r.Ok? <==> k == |newly| && through >= 1 + k + 1 + REPLY_READS)
      ensures r.Err? ==> r.error == if through > 0 && IdOf(old(db.packages), name).None? then NoSuchPackage else DatabaseError
    {
      ghost var was := db.View();
      if through == 0 {
        return Err(DatabaseError);
      }
      var found := db.SetVariants(name, desired);
      if found.None? {
        return Err(NoSuchPackage);
      }
      StoredUnderName(was, found.value, name, desired);
      assert db.View() == WithVariants(was, found.value, desired);
      var queued := EnqueueNewlyActive(p, desired.Active(), before, now, through - 1);
      StoredFacts(was, found.value, desired, p, NewlyActive(desired.Active(), before)[..queued], now);
      if queued < |NewlyActive(desired.Active(), before)| || through < 1 + queued + 1 + REPLY_READS {
        return Err(DatabaseError);
      }
      return Ok(found.value);
    }

    /** Builds every active variant of a package again, up to the first refusal. */
    method RebuildPackage(name: string, now: int, through: nat) returns (r: Result<nat, ApiError>)
      requires Valid()
      modifies this`wake, db
      ensures Valid()
      ensures r.Ok? && r.value > 0 ==> wake == old(wake) + [old(db.nextBuildId)]
      ensures r.Err? || r.value == 0 ==> wake == old(wake)
      ensures r.Err? ==> r.error == if through > 0 && IdOf(old(db.packages), name).None? then NoSuchPackage else DatabaseError
      ensures db.packages == old(db.packages) && KeepsBuilds(old(db.View()), db.View())
      ensures var q := IdOf(old(db.packages), name);
              if through == 0 || q.None? then r.Err? && db.View() == old(db.View())
              else
                var active := old(db.packages)[q.value].variants.Active();
                var k := Min(|active|, through - 1);
                && db.View() == EnqueueAll(old(db.View()), q.value, active[..k], Trigger.Rebuild, now)
                && (r.Ok? <==> k == |active|) && (r.Ok? ==> r.value == k && VariantsBuilt(db.View(), q.value))
      ensures AllBuilt(old(db.View())) ==> AllBuilt(db.View())
    {
      ghost var was := db.View();
      if through == 0 {
        return Err(DatabaseError);
      }
      var found := db.FindPackage(name);
      if found.None? {
        return Err(NoSuchPackage);
      }
      IdIs(was.packages, name, found.value);
      var active := db.packages[found.value].variants.Active();
      var queued := EnqueueAllVariants(found.value, active, Trigger.Rebuild, now, through - 1);
      Rebuilt(was, found.value, queued, now);
      return if queued < |active| then Err(DatabaseError) else Ok(queued);
    }

    /** Deletes a package with its builds; the other packages keep theirs. */
    method RemovePackage(name: string, through: nat) returns (r: Result<(), ApiError>)
      requires Valid()
      modifies db
      ensures Valid()
      ensures r.Ok? <==> Known(old(db.packages), name) && through >= 2
      ensures r.Err? ==> db.View() == old(db.View())
      ensures r.Err? ==> r.error == if through > 0 && !Known(old(db.packages), name) then NoSuchPackage else DatabaseError
      ensures r.Ok? ==> exists p :: p in old(db.packages) && old(db.packages)[p].name == name && db.View() == DropPackage(old(db.View()), p)
      ensures r.Ok? ==> !Known(db.packages, name)
      ensures AllBuilt(old(db.View())) ==> AllBuilt(db.View())
    {
      ghost var was := db.View();
      if through == 0 {
        return Err(DatabaseError);
      }
      var found := db.FindPackage(name);
      if found.None? {
        return Err(NoSuchPackage);
      }
      if through == 1 {
        return Err(DatabaseError);
      }
      db.DeletePackage(found.value);
      if AllBuilt(was) {
        Dropped(was, found.value);
      }
      return Ok(());
    }

    method Handle(request: Request, now: int, through: nat) returns (answer: Answer)
      requires Valid()
      modifies this`wake, db
      ensures Valid()
      ensures AllBuilt(old(db.View())) && Harmless(request, answer) ==> AllBuilt(db.View())
      ensures answer.Served? ==> match request
                                 case Remove(name) => !Known(db.packages, name)
                                 case Add(name, autoRebuild, tags) => Known(db.packages, name) && AllKnown(tags)
                                 case ChangeVariants(name, tags) => Known(old(db.packages), name) && AllKnown(tags)
                                 case Rebuild(name) =>
                                   var q := IdOf(old(db.packages), name);
                                   q.Some? && q.value in db.packages && VariantsBuilt(db.View(), q.value)
    {
      match request
      case Add(name, autoRebuild, tags) =>
        var r := AddPackage(name, autoRebuild, tags, now, through);
        answer := if r.Ok? then Served else NotServed(r.error);
      case ChangeVariants(name, tags) =>
        var r := SetPackageVariants(name, tags, now, through);
        answer := if r.Ok? then Served else NotServed(r.error);
      case Rebuild(name) =>
        var r := RebuildPackage(name, now, through);
        answer := if r.Ok? then Served else NotServed(r.error);
      case Remove(name) =>
        var r := RemovePackage(name, through);
        answer := if r.Ok? then Served else NotServed(r.error);
    }

    /**
     Any run of requests on a complete database leaves it complete, whatever the database refuses,
     unless an addition was answered with an error or a change of variants with a database error.
     */
    method Serve(requests: seq<Request>, through: seq<nat>, now: int) returns (answers: seq<Answer>)
      requires Valid() && |through| == |requests|
      modifies this`wake, db
      ensures Valid() && |answers| == |requests|
      ensures AllBuilt(old(db.View())) && (forall k | 0 <= k < |answers| :: Harmless(requests[k], answers[k])) ==>
                AllBuilt(db.View())
    {
      answers := [];
      for i := 0 to |requests|
        invariant Valid() && |answers| == i
        invariant AllBuilt(old(db.View())) && (forall k | 0 <= k < i :: Harmless(requests[k], answers[k])) ==>
                    AllBuilt(db.View())
      {
        var answer := Handle(requests[i], now, through[i]);
        answers := answers + [answer];
      }
    }
  }
}
