/**
 The `Db` handle of paur-db/src/queries.rs: tables that its methods update in place. Every
 method is tied to the statement it runs in `Schema`; each keeps `TablesOk`.
 Timestamps (`now`) are parameters.
 */
module Database {
  import opened Options
  import opened Variants
  import opened Schema

  datatype DbError = ForeignKey | Busy

  class Db {
    var packages: map<PkgId, Package>
    var builds: Builds
    var logs: map<BuildId, map<nat, LogLine>>
    var nextBuildId: BuildId

    function View(): Tables
      reads this
    {
      Tables(packages, builds, logs, nextBuildId)
    }

    constructor ()
      ensures View() == Tables(map[], map[], map[], 1)
      ensures TablesOk(View())
    {
      packages, builds, logs, nextBuildId := map[], map[], map[], 1;
    }

    /**
     Migration 0003 on rows without usable numbers: walks the ids in ascending order with a
     counter per package and writes the row number into every row.
     */
    method BackfillNumbers()
      requires IdsBelow(builds, nextBuildId)
      modifies this`builds
      ensures builds == Backfill(old(builds))
      ensures builds.Keys == old(builds.Keys) && forall i | i in builds :: builds[i] == old(builds)[i].(num := builds[i].num)
      ensures Ranked(builds)
      ensures forall p :: DenseAndOrdered(builds, p, CountBelow(builds, p, nextBuildId))
    {
      ghost var was := builds;
      var counters: map<PkgId, nat> := map[];
      var numbered: Builds := map[];
      for i := 0 to nextBuildId
        invariant builds == was
        invariant forall p :: (if p in counters then counters[p] else 0) == CountBelow(was, p, i)
        invariant forall j :: j in numbered <==> j in was && j < i
        invariant forall j | j in numbered :: numbered[j] == was[j].(num := RowNumber(was, j))
      {
        if i in builds {
          var p := builds[i].pkg;
          counters := counters[p := (if p in counters then counters[p] else 0) + 1];
          numbered := numbered[i := builds[i].(num := counters[p])];
        }
      }
      builds := numbered;
      assert numbered == Backfill(was);
      BackfillRanks(was, nextBuildId);
      forall p
        ensures DenseAndOrdered(builds, p, CountBelow(builds, p, nextBuildId))
      {
        CountAgrees(was, builds, p, nextBuildId);
      }
    }

    /** SELECT COALESCE(MAX(seq), 0) + 1 FROM builds. */
    method NextNumber(p: PkgId) returns (num: nat)
      ensures num == NextNum(View(), p)
    {
      num := 0;
      for i := 0 to nextBuildId
        invariant num == MaxNum(builds, p, i)
      {
        if i in builds && builds[i].pkg == p && builds[i].num > num {
          num := builds[i].num;
        }
      }
      num := num + 1;
    }

    /**
     Read and insert in one transaction. It fails exactly when the package does not exist or the
     database refuses it, as it does when another task has committed since the read; then nothing
     is changed. The new build continues the numbers of its package.
     */
    method EnqueueBuild(p: PkgId, trigger: Trigger, variant: Variant, now: int, refused: bool) returns (r: Result<BuildId, DbError>)
      requires TablesOk(View())
      modifies this
      ensures TablesOk(View())
      ensures r.Ok? <==> p in old(packages) && !refused
      ensures r.Err? ==> View() == old(View())
      ensures r.Ok? ==> r.value == old(nextBuildId)
      ensures r.Ok? ==> View() == InsertBuild(old(View()), p, NextNum(old(View()), p), trigger, variant, now)
      ensures r.Ok? ==> r.value in builds && builds[r.value].num == CountBelow(builds, p, nextBuildId)
      ensures r.Ok? ==>
                builds == old(builds)[r.value :=
                            BuildRow(p, builds[r.value].num, Queued, now, None, None, None, None, None, None, trigger, variant)]
      ensures r.Ok? ==> packages == old(packages) && logs == old(logs)[r.value := map[]] && nextBuildId == r.value + 1
    {
      if refused {
        return Err(Busy);
      }
      if p !in packages {
        return Err(ForeignKey);
      }
      var num := NextNumber(p);
      InsertKeepsOk(View(), p, trigger, variant, now);
      var id := nextBuildId;
      builds := builds[id := NewRow(p, num, trigger, variant, now)];
      logs := logs[id := map[]];
      nextBuildId := id + 1;
      return Ok(id);
    }

    /** Whether row `i` is claimed before row `j`: ORDER BY queued_at ASC, id ASC. */
    predicate Older(i: BuildId, j: BuildId)
      reads this
      requires i in builds && j in builds
    {
      Before(builds, j, i)
    }

    /** Claims the oldest queued build, if there is one. */
    method ClaimNextQueued(worker: string, now: int) returns (r: Option<BuildId>)
      requires TablesOk(View())
      modifies this`builds
      ensures TablesOk(View())
      ensures r.None? <==> forall i | i in old(builds) :: !old(builds)[i].status.Queued?
      ensures r.None? ==> View() == old(View())
      ensures r.Some? ==> IsQueued(old(View()), r.value) && View() == Claim(old(View()), r.value, worker, now)
      ensures r.Some? ==> forall i | i in old(builds) && old(builds)[i].status.Queued? && i != r.value ::
                            || old(builds)[r.value].queuedAt < old(builds)[i].queuedAt
                            || (old(builds)[r.value].queuedAt == old(builds)[i].queuedAt && r.value < i)
    {
      r := None;
      for i := 0 to nextBuildId
        invariant builds == old(builds)
        invariant r.Some? ==> r.value < i && IsQueued(View(), r.value)
        invariant forall j | j in builds && j < i && builds[j].status.Queued? :: r.Some? && (j == r.value || Older(r.value, j))
      {
        if i in builds && builds[i].status.Queued? && (r.None? || Older(i, r.value)) {
          r := Some(i);
        }
      }
      if r.Some? {
        var claimed := ClaimBuildById(r.value, worker, now);
      }
    }

    /** Claims one build; it succeeds exactly when that build is queued. */
    method ClaimBuildById(id: BuildId, worker: string, now: int) returns (claimed: bool)
      requires TablesOk(View())
      modifies this`builds
      ensures TablesOk(View())
      ensures claimed <==> old(IsQueued(View(), id))
      ensures View() == Claim(old(View()), id, worker, now)
      ensures claimed ==>
                builds == old(builds)[id := old(builds)[id].(status := Running, startedAt := Some(now), workerId := Some(worker))]
      ensures builds.Keys == old(builds.Keys) && forall i | i in builds && i != id :: builds[i] == old(builds)[i]
    {
      if id !in builds || !builds[id].status.Queued? {
        return false;
      }
      var r := builds[id].(status := Running, startedAt := Some(now), workerId := Some(worker));
      UpdateKeepsOk(View(), id, r);
      builds := builds[id := r];
      return true;
    }

    /**
     Stamps a final status, whatever the row held before. The table stays well-formed exactly
     when the caller's status, exit code and row fit together.
     */
    method FinishBuild(id: BuildId, status: Status, exitCode: Option<int>, now: int)
      requires TablesOk(View())
      modifies this`builds
      ensures View() == Finish(old(View()), id, status, exitCode, now)
      ensures TablesOk(View()) <==> id !in builds || RowOk(builds[id])
      ensures builds.Keys == old(builds.Keys) && forall i | i in builds && i != id :: builds[i] == old(builds)[i]
      ensures id in builds ==> builds[id] == old(builds)[id].(status := status, finishedAt := Some(now), exitCode := exitCode)
    {
      if id in builds {
        var r := builds[id].(status := status, finishedAt := Some(now), exitCode := exitCode);
        if RowOk(r) {
          UpdateKeepsOk(View(), id, r);
        }
        builds := builds[id := r];
      }
    }

    /** Cancels a live build; nothing changes when the build is unknown or already final. */
    method CancelBuild(id: BuildId, now: int) returns (outcome: CancelOutcome)
      requires TablesOk(View())
      modifies this`builds
      ensures TablesOk(View())
      ensures outcome == CancelOutcomeOf(old(View()), id)
      ensures View() == Cancel(old(View()), id, now)
      ensures !outcome.WasCancelled? ==> View() == old(View())
      ensures match outcome
              case NotFound => id !in old(builds)
              case AlreadyTerminal(st) => id in old(builds) && st == old(builds)[id].status && !st.Queued? && !st.Running?
              case WasCancelled =>
                && id in old(builds) && (old(builds)[id].status.Queued? || old(builds)[id].status.Running?)
                && builds == old(builds)[id := old(builds)[id].(status := Cancelled, finishedAt := Some(now))]
      ensures builds.Keys == old(builds.Keys) && forall i | i in builds && i != id :: builds[i] == old(builds)[i]
    {
      if id !in builds {
        return NotFound;
      }
      var cur := builds[id].status;
      if !cur.Live() {
        return AlreadyTerminal(cur);
      }
      var r := builds[id].(status := Cancelled, finishedAt := Some(now));
      UpdateKeepsOk(View(), id, r);
      builds := builds[id := r];
      return WasCancelled;
    }

    /** Records the published file; the table stays well-formed exactly for a successful build. */
    method RecordPkg(id: BuildId, file: string, version: string)
      requires TablesOk(View())
      modifies this`builds
      ensures View() == Record(old(View()), id, file, version)
      ensures TablesOk(View()) <==> id !in builds || builds[id].status.Success?
      ensures builds == if id in old(builds)
                        then old(builds)[id := old(builds)[id].(pkgFile := Some(file), pkgVersion := Some(version))]
                        else old(builds)
    {
      if id in builds {
        var r := builds[id].(pkgFile := Some(file), pkgVersion := Some(version));
        if RowOk(r) {
          UpdateKeepsOk(View(), id, r);
        }
        builds := builds[id := r];
      }
    }

    /** Marks every running build failed with exit code -1, and touches no other row. */
    method ReapStaleRunning(now: int)
      requires TablesOk(View())
      modifies this`builds
      ensures TablesOk(View())
      ensures View() == Reap(old(View()), now)
      ensures forall i | i in builds :: !builds[i].status.Running?
      ensures builds.Keys == old(builds.Keys)
      ensures forall i | i in builds ::
                builds[i] == if old(builds)[i].status.Running?
                             then old(builds)[i].(status := Failed, finishedAt := Some(now), exitCode := Some(-1))
                             else old(builds)[i]
    {
      ReapKeepsOk(View(), now);
      builds := map i | i in builds :: ReapRow(builds[i], now);
    }

    /** The first of a set of builds in list order. */
    method FirstOf(ids: set<BuildId>) returns (first: BuildId)
      requires ids != {} && ids <= builds.Keys
      ensures first in ids && forall j | j in ids && j != first :: Before(builds, first, j)
    {
      first :| first in ids;
      var todo := ids - {first};
      while todo != {}
        invariant todo <= ids && first in ids
        invariant forall j | j in ids && j != first && j !in todo :: Before(builds, first, j)
        decreases |todo|
      {
        var x :| x in todo;
        if Before(builds, x, first) {
          first := x;
        }
        todo := todo - {x};
      }
    }

    /** The newest builds with a status, newest first, up to a limit. */
    method ListBuildsBy(st: Status, limit: nat) returns (r: seq<BuildId>)
      ensures IsNewest(builds, st, limit, r)
      ensures r == ListBuilds(builds, st, limit)
      ensures forall a, b | 0 <= a < b < |r| ::
                && r[a] in builds && r[b] in builds
                && (builds[r[a]].queuedAt > builds[r[b]].queuedAt || (builds[r[a]].queuedAt == builds[r[b]].queuedAt && r[a] > r[b]))
    {
      var all := set i | i in builds && builds[i].status == st;
      var rest := all;
      r := [];
      while rest != {} && |r| < limit
        invariant rest <= all == WithStatus(builds, st)
        invariant |r| + |rest| == |all| && |r| <= limit
        invariant forall i :: i in r <==> i in all && i !in rest
        invariant forall a | 0 <= a < |r| :: r[a] in all
        invariant forall i, j | i in r && j in rest :: Before(builds, i, j)
        invariant forall a, b | 0 <= a < b < |r| :: Before(builds, r[a], r[b])
        decreases |rest|
      {
        var x := FirstOf(rest);
        r := r + [x];
        rest := rest - {x};
      }
      assert rest == {} ==> |r| == |all|;
      ListBuildsSpec(builds, st, limit);
      NewestIsUnique(builds, st, limit, r, ListBuilds(builds, st, limit));
    }

    /** Deletes a package with all its builds and their logs. */
    method DeletePackage(p: PkgId)
      requires TablesOk(View())
      modifies this
      ensures TablesOk(View())
      ensures NamesDistinct(old(packages)) ==> NamesDistinct(packages)
      ensures View() == DropPackage(old(View()), p)
      ensures packages == old(packages) - {p} && nextBuildId == old(nextBuildId)
      ensures forall i | i in builds :: i in old(builds) && builds[i].pkg != p
      ensures forall i | i in old(builds) && old(builds)[i].pkg != p :: i in builds && builds[i] == old(builds)[i] && logs[i] == old(logs)[i]
    {
      DeleteKeepsOk(View(), p);
      var gone := builds;
      packages := packages - {p};
      builds := map i | i in gone && gone[i].pkg != p :: gone[i];
      logs := map i | i in logs && !(i in gone && gone[i].pkg == p) :: logs[i];
    }

    /** Looks a package up by its unique name. */
    method FindPackage(name: string) returns (r: Option<PkgId>)
      ensures r.Some? ==> r.value in packages && packages[r.value].name == name
      ensures r.None? ==> forall p | p in packages :: packages[p].name != name
    {
      var todo := packages.Keys;
      while todo != {}
        invariant todo <= packages.Keys
        invariant forall p | p in packages && p !in todo :: packages[p].name != name
        decreases |todo|
      {
        var p :| p in todo;
        if packages[p].name == name {
          return Some(p);
        }
        todo := todo - {p};
      }
      return None;
    }

    /** An id no package holds: one above the largest, as SQLite picks it. */
    method FreshPackageId() returns (p: PkgId)
      ensures forall q | q in packages :: q < p
      ensures p == 1 || p - 1 in packages
    {
      p := 1;
      var todo := packages.Keys;
      while todo != {}
        invariant todo <= packages.Keys
        invariant forall q | q in packages && q !in todo :: q < p
        invariant p == 1 || p - 1 in packages
        decreases |todo|
      {
        var q :| q in todo;
        if q >= p {
          p := q + 1;
        }
        todo := todo - {q};
      }
    }

    /**
     Adds the package under a fresh id with the default variant only, or keeps the existing row
     and makes its auto-rebuild flag sticky.
     */
    method UpsertPackage(name: string, autoRebuild: bool) returns (p: PkgId)
      requires TablesOk(View())
      modifies this`packages
      ensures TablesOk(View())
      ensures NamesDistinct(old(packages)) ==> NamesDistinct(packages)
      ensures p in packages && packages[p].name == name
      ensures p in old(packages) ==>
                packages == old(packages)[p := old(packages)[p].(autoRebuild := old(packages)[p].autoRebuild || autoRebuild)]
      ensures p !in old(packages) ==>
                && packages == old(packages)[p := Package(name, autoRebuild, PackageVariants(true, false, false))]
                && (forall q | q in old(packages) :: old(packages)[q].name != name)
                && (forall q | q in old(packages) :: q < p) && (p == 1 || p - 1 in old(packages))
    {
      var found := FindPackage(name);
      match found {
        case Some(q) =>
          p := q;
          packages := packages[p := packages[p].(autoRebuild := packages[p].autoRebuild || autoRebuild)];
        case None =>
          p := FreshPackageId();
          packages := packages[p := Package(name, autoRebuild, DEFAULT_VARIANTS)];
      }
    }

    /** Stores a variant set with the default forced on; false when there is no such package. */
    method SetVariants(name: string, variants: PackageVariants) returns (found: Option<PkgId>)
      requires TablesOk(View())
      modifies this`packages
      ensures TablesOk(View())
      ensures NamesDistinct(old(packages)) ==> NamesDistinct(packages)
      ensures found.None? ==> packages == old(packages) && forall p | p in packages :: packages[p].name != name
      ensures found.Some? ==>
                && found.value in old(packages) && old(packages)[found.value].name == name
                && packages == old(packages)[found.value := old(packages)[found.value].(variants := variants.(default := true))]
    {
      found := FindPackage(name);
      if found.Some? {
        packages := packages[found.value := packages[found.value].(variants := variants.(default := true))];
      }
    }

    /** SELECT COALESCE(MAX(seq), 0) + 1 FROM build_logs. */
    method NextLogNumber(id: BuildId) returns (k: nat)
      ensures k == NextLogSeq(View(), id)
    {
      if id !in logs {
        return 1;
      }
      var todo := logs[id].Keys;
      k := 0;
      while todo != {}
        invariant todo <= logs[id].Keys
        invariant forall x | x in logs[id] && x !in todo :: x <= k
        invariant k in logs[id] || (k == 0 && todo == logs[id].Keys)
        decreases |todo|
      {
        var x :| x in todo;
        if x > k || k !in logs[id] {
          k := x;
        }
        todo := todo - {x};
      }
      k := k + 1;
    }

    /** Both statements of an append that nothing interrupts. */
    method AppendLog(id: BuildId, stream: Stream, line: string, now: int) returns (ok: bool)
      requires TablesOk(View())
      modifies this`logs
      ensures TablesOk(View())
      ensures ok <==> id in old(logs)
      ensures !ok ==> View() == old(View())
      ensures ok ==> View() == InsertLog(old(View()), id, NextLogSeq(old(View()), id), LogLine(stream, line, now))
      ensures ok ==> forall k | k in old(logs)[id] :: k in logs[id] && logs[id][k] == old(logs)[id][k] && k < NextLogSeq(old(View()), id)
    {
      var k := NextLogNumber(id);
      if id !in logs {
        return false;
      }
      var lines: map<nat, LogLine> := logs[id];
      logs := logs[id := lines[k := LogLine(stream, line, now)]];
      return true;
    }
  }
}
