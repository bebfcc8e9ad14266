/**
 The rows of the `packages`, `builds` and `build_logs` tables as values, and what each SQL
 statement or transaction of paur-db/src/queries.rs does to them. `Database` runs these
 statements in place; `Protocol` interleaves them.
 */
module Schema {
  import opened Options
  import opened Variants

  type PkgId = nat
  type BuildId = nat

  datatype Status = Queued | Running | Success | Failed | Cancelled {
    predicate Live() { Queued? || Running? }
  }

  datatype Trigger = Manual | Poll | Rebuild | Dep

  datatype Stream = Stdout | Stderr

  datatype Package = Package(name: string, autoRebuild: bool, variants: PackageVariants)

  /** A row of `builds`. `num` is the per-package number of the column `seq`. */
  datatype BuildRow = BuildRow(
    pkg: PkgId,
    num: nat,
    status: Status,
    queuedAt: int,
    startedAt: Option<int>,
    finishedAt: Option<int>,
    exitCode: Option<int>,
    pkgFile: Option<string>,
    pkgVersion: Option<string>,
    workerId: Option<string>,
    trigger: Trigger,
    variant: Variant)

  /** A row of `build_logs`, without its key. */
  datatype LogLine = LogLine(stream: Stream, line: string, ts: int)

  type Builds = map<BuildId, BuildRow>

  /** `logs` groups the rows of `build_logs` by build; the inner key is the column `seq`. */
  datatype Tables = Tables(
    packages: map<PkgId, Package>,
    builds: Builds,
    logs: map<BuildId, map<nat, LogLine>>,
    nextBuildId: BuildId)

  /** The columns that never change. */
  predicate SameBuild(a: BuildRow, b: BuildRow) {
    a.pkg == b.pkg && a.num == b.num && a.queuedAt == b.queuedAt && a.trigger == b.trigger && a.variant == b.variant
  }

  // -------- builds: aggregates --------

  /** How many builds of package `p` have an id below `hi`. */
  function CountBelow(builds: Builds, p: PkgId, hi: BuildId): nat {
    if hi == 0 then 0
    else CountBelow(builds, p, hi - 1) + if hi - 1 in builds && builds[hi - 1].pkg == p then 1 else 0
  }

  /** COALESCE(MAX(seq), 0) over the builds of package `p` with an id below `hi`. */
  function MaxNum(builds: Builds, p: PkgId, hi: BuildId): nat {
    if hi == 0 then 0
    else
      var m := MaxNum(builds, p, hi - 1);
      if hi - 1 in builds && builds[hi - 1].pkg == p && builds[hi - 1].num > m then builds[hi - 1].num else m
  }

  /** ROW_NUMBER() OVER (PARTITION BY package_id ORDER BY id ASC). */
  function RowNumber(builds: Builds, id: BuildId): nat
    requires id in builds
  {
    CountBelow(builds, builds[id].pkg, id + 1)
  }

  /** Every build carries its rank among the builds of its package. */
  ghost predicate Ranked(builds: Builds) {
    forall i | i in builds :: builds[i].num == RowNumber(builds, i)
  }

  predicate IdsBelow(builds: Builds, hi: BuildId) {
    forall i | i in builds :: i < hi
  }

  lemma CountMonotone(builds: Builds, p: PkgId, lo: BuildId, hi: BuildId)
    requires lo <= hi
    ensures CountBelow(builds, p, lo) <= CountBelow(builds, p, hi)
    ensures forall i | lo <= i < hi && i in builds && builds[i].pkg == p :: CountBelow(builds, p, lo) < CountBelow(builds, p, hi)
  {
    if lo < hi {
      CountMonotone(builds, p, lo, hi - 1);
    }
  }

  /** In a ranked table the largest number of a package is the number of its builds. */
  lemma {:induction false} MaxIsCount(builds: Builds, p: PkgId, hi: BuildId)
    requires Ranked(builds)
    ensures MaxNum(builds, p, hi) == CountBelow(builds, p, hi)
  {
    if hi > 0 {
      MaxIsCount(builds, p, hi - 1);
    }
  }

  /** Every number from 1 to the count belongs to some build of the package. */
  lemma {:induction false} NumberTaken(builds: Builds, p: PkgId, hi: BuildId, k: nat) returns (i: BuildId)
    requires Ranked(builds)
    requires 1 <= k <= CountBelow(builds, p, hi)
    ensures i < hi && i in builds && builds[i].pkg == p && builds[i].num == k
  {
    if hi - 1 in builds && builds[hi - 1].pkg == p && k == CountBelow(builds, p, hi) {
      i := hi - 1;
    } else {
      i := NumberTaken(builds, p, hi - 1, k);
    }
  }

  ghost predicate HasNum(builds: Builds, p: PkgId, k: nat) {
    exists i :: i in builds && builds[i].pkg == p && builds[i].num == k
  }

  /** The numbers of a package are exactly 1..n and are ordered like the ids. */
  ghost predicate DenseAndOrdered(builds: Builds, p: PkgId, n: nat) {
    && (forall i | i in builds && builds[i].pkg == p :: 1 <= builds[i].num <= n)
    && (forall k | 1 <= k <= n :: HasNum(builds, p, k))
    && (forall i, j | i in builds && j in builds && builds[i].pkg == p && builds[j].pkg == p ::
          i < j <==> builds[i].num < builds[j].num)
  }

  /** Being ranked and being dense and ordered are the same thing, package by package. */
  lemma RankedIsDense(builds: Builds, hi: BuildId)
    requires IdsBelow(builds, hi)
    requires Ranked(builds)
    ensures forall p :: DenseAndOrdered(builds, p, CountBelow(builds, p, hi))
  {
    forall p
      ensures DenseAndOrdered(builds, p, CountBelow(builds, p, hi))
    {
      var n := CountBelow(builds, p, hi);
      forall i | i in builds && builds[i].pkg == p
        ensures 1 <= builds[i].num <= n
      {
        CountMonotone(builds, p, i + 1, hi);
      }
      forall k | 1 <= k <= n
        ensures HasNum(builds, p, k)
      {
        var i := NumberTaken(builds, p, hi, k);
      }
      forall i, j | i in builds && j in builds && builds[i].pkg == p && builds[j].pkg == p
        ensures i < j <==> builds[i].num < builds[j].num
      {
        if i < j {
          CountMonotone(builds, p, i + 1, j + 1);
        } else {
          CountMonotone(builds, p, j + 1, i + 1);
        }
      }
    }
  }

  /** Counts below `hi` depend only on which ids below `hi` belong to the package. */
  lemma CountAgrees(a: Builds, b: Builds, p: PkgId, hi: BuildId)
    requires forall i | i < hi :: (i in a && a[i].pkg == p) <==> (i in b && b[i].pkg == p)
    ensures CountBelow(a, p, hi) == CountBelow(b, p, hi)
  {
  }

  /** Statements that move no build to another package, add none and drop none keep the ranks. */
  lemma RankedSurvivesUpdate(a: Builds, b: Builds)
    requires Ranked(a)
    requires a.Keys == b.Keys
    requires forall i | i in a :: a[i].pkg == b[i].pkg && a[i].num == b[i].num
    ensures Ranked(b)
  {
    forall i | i in b
      ensures b[i].num == RowNumber(b, i)
    {
      CountAgrees(a, b, b[i].pkg, i + 1);
    }
  }

  // -------- migration 0003 --------

  /** The UPDATE of the migration: every row gets its row number. */
  function Backfill(builds: Builds): Builds {
    map i | i in builds :: builds[i].(num := RowNumber(builds, i))
  }

  /** From any rows, with any gaps between their ids, the backfill gives dense, ordered numbers. */
  lemma BackfillRanks(builds: Builds, hi: BuildId)
    requires IdsBelow(builds, hi)
    ensures Ranked(Backfill(builds))
    ensures forall p :: DenseAndOrdered(Backfill(builds), p, CountBelow(builds, p, hi))
  {
    var after := Backfill(builds);
    forall i | i in after
      ensures after[i].num == RowNumber(after, i)
    {
      CountAgrees(builds, after, builds[i].pkg, i + 1);
    }
    RankedIsDense(after, hi);
    forall p
      ensures DenseAndOrdered(after, p, CountBelow(builds, p, hi))
    {
      CountAgrees(builds, after, p, hi);
    }
  }

  // -------- row well-formedness --------

  /** Which columns a row of each status has filled in. */
  predicate RowOk(r: BuildRow) {
    && (r.startedAt.Some? <==> r.workerId.Some?)
    && (r.pkgFile.Some? <==> r.pkgVersion.Some?)
    && (r.pkgFile.Some? ==> r.status.Success?)
    && match r.status
       case Queued => r.startedAt.None? && r.finishedAt.None? && r.exitCode.None?
       case Running => r.startedAt.Some? && r.finishedAt.None? && r.exitCode.None?
       case Success => r.startedAt.Some? && r.finishedAt.Some? && r.exitCode == Some(0)
       case Failed => r.startedAt.Some? && r.finishedAt.Some? && r.exitCode.Some? && r.exitCode.value != 0
       case Cancelled => r.finishedAt.Some? && r.exitCode.None?
  }

  /** What every reachable database satisfies on its own. */
  ghost predicate TablesOk(t: Tables) {
    && IdsBelow(t.builds, t.nextBuildId)
    && t.logs.Keys == t.builds.Keys
    && Ranked(t.builds)
    && forall i | i in t.builds :: RowOk(t.builds[i]) && t.builds[i].pkg in t.packages
  }

  /** The unique constraint on the name of a package. */
  ghost predicate NamesDistinct(packages: map<PkgId, Package>) {
    forall p, q | p in packages && q in packages && packages[p].name == packages[q].name :: p == q
  }

  ghost predicate Known(packages: map<PkgId, Package>, name: string) {
    exists p :: p in packages && packages[p].name == name
  }

  // -------- the statements --------

  /** SELECT COALESCE(MAX(seq), 0) + 1 FROM builds WHERE package_id = p. */
  function NextNum(t: Tables, p: PkgId): nat {
    MaxNum(t.builds, p, t.nextBuildId) + 1
  }

  /** The foreign key on `package_id` and the unique index on (package_id, seq). */
  predicate InsertAllowed(t: Tables, p: PkgId, num: nat) {
    p in t.packages && forall i | i in t.builds :: !(t.builds[i].pkg == p && t.builds[i].num == num)
  }

  function NewRow(p: PkgId, num: nat, trigger: Trigger, variant: Variant, now: int): BuildRow {
    BuildRow(p, num, Queued, now, None, None, None, None, None, None, trigger, variant)
  }

  /** INSERT INTO builds; the id is never one that was used before. */
  function InsertBuild(t: Tables, p: PkgId, num: nat, trigger: Trigger, variant: Variant, now: int): Tables {
    t.(builds := t.builds[t.nextBuildId := NewRow(p, num, trigger, variant, now)],
       logs := t.logs[t.nextBuildId := map[]],
       nextBuildId := t.nextBuildId + 1)
  }

  function WithRow(t: Tables, id: BuildId, r: BuildRow): Tables {
    t.(builds := t.builds[id := r])
  }

  predicate IsQueued(t: Tables, id: BuildId) {
    id in t.builds && t.builds[id].status.Queued?
  }

  /** UPDATE ... SET status = 'running' WHERE id = ? AND status = 'queued'. */
  function Claim(t: Tables, id: BuildId, worker: string, now: int): Tables {
    if IsQueued(t, id) then
      WithRow(t, id, t.builds[id].(status := Running, startedAt := Some(now), workerId := Some(worker)))
    else t
  }

  /** The unconditional UPDATE of `finish_build`. */
  function Finish(t: Tables, id: BuildId, status: Status, exitCode: Option<int>, now: int): Tables {
    if id in t.builds then
      WithRow(t, id, t.builds[id].(status := status, finishedAt := Some(now), exitCode := exitCode))
    else t
  }

  datatype CancelOutcome = WasCancelled | AlreadyTerminal(status: Status) | NotFound

  function CancelOutcomeOf(t: Tables, id: BuildId): CancelOutcome {
    if id !in t.builds then NotFound
    else if t.builds[id].status.Live() then WasCancelled
    else AlreadyTerminal(t.builds[id].status)
  }

  function Cancel(t: Tables, id: BuildId, now: int): Tables {
    if CancelOutcomeOf(t, id).WasCancelled? then
      WithRow(t, id, t.builds[id].(status := Cancelled, finishedAt := Some(now)))
    else t
  }

  function Record(t: Tables, id: BuildId, file: string, version: string): Tables {
    if id in t.builds then
      WithRow(t, id, t.builds[id].(pkgFile := Some(file), pkgVersion := Some(version)))
    else t
  }

  function ReapRow(r: BuildRow, now: int): BuildRow {
    if r.status.Running? then r.(status := Failed, finishedAt := Some(now), exitCode := Some(-1)) else r
  }

  function Reap(t: Tables, now: int): Tables {
    t.(builds := map i | i in t.builds :: ReapRow(t.builds[i], now))
  }

  /** INSERT ... ON CONFLICT DO UPDATE on `packages`, or an UPDATE of one of its rows. */
  function PutPackage(t: Tables, p: PkgId, pkg: Package): Tables {
    t.(packages := t.packages[p := pkg])
  }

  /** DELETE FROM packages; builds and their logs go with it (ON DELETE CASCADE). */
  function DropPackage(t: Tables, p: PkgId): Tables {
    t.(packages := t.packages - {p},
       builds := map i | i in t.builds && t.builds[i].pkg != p :: t.builds[i],
       logs := map i | i in t.logs && !(i in t.builds && t.builds[i].pkg == p) :: t.logs[i])
  }

  /** The largest element, 0 for the empty set. */
  ghost function MaxOf(s: set<nat>): (m: nat)
    ensures forall x | x in s :: x <= m
    ensures m in s || (s == {} && m == 0)
  {
    if s == {} then 0
    else
      var x :| x in s;
      var m := MaxOf(s - {x});
      assert forall y | y in s :: y == x || y in s - {x};
      if x > m then x else m
  }

  /** SELECT COALESCE(MAX(seq), 0) + 1 FROM build_logs WHERE build_id = id. */
  ghost function NextLogSeq(t: Tables, id: BuildId): nat {
    if id in t.logs then MaxOf(t.logs[id].Keys) + 1 else 1
  }

  /** The foreign key on `build_id` and the primary key (build_id, seq). */
  predicate LogInsertAllowed(t: Tables, id: BuildId, k: nat) {
    id in t.logs && k !in t.logs[id]
  }

  function InsertLog(t: Tables, id: BuildId, k: nat, line: LogLine): Tables
    requires id in t.logs
  {
    var lines: map<nat, LogLine> := t.logs[id];
    t.(logs := t.logs[id := lines[k := line]])
  }

  // -------- what the statements keep --------

  lemma InsertKeepsOk(t: Tables, p: PkgId, trigger: Trigger, variant: Variant, now: int)
    requires TablesOk(t)
    requires p in t.packages
    ensures TablesOk(InsertBuild(t, p, NextNum(t, p), trigger, variant, now))
    ensures InsertAllowed(t, p, NextNum(t, p))
  {
    var t' := InsertBuild(t, p, NextNum(t, p), trigger, variant, now);
    forall i | i in t'.builds
      ensures t'.builds[i].num == RowNumber(t'.builds, i)
    {
      var q := t'.builds[i].pkg;
      if i == t.nextBuildId {
        CountAgrees(t.builds, t'.builds, p, i);
        MaxIsCount(t.builds, p, i);
      } else {
        CountAgrees(t.builds, t'.builds, q, i + 1);
      }
    }
    MaxIsCount(t.builds, p, t.nextBuildId);
    RankedIsDense(t.builds, t.nextBuildId);
    assert DenseAndOrdered(t.builds, p, CountBelow(t.builds, p, t.nextBuildId));
  }

  /** An UPDATE of one row that keeps its package and number, and leaves the row well-formed. */
  lemma UpdateKeepsOk(t: Tables, id: BuildId, r: BuildRow)
    requires TablesOk(t)
    requires id in t.builds && t.builds[id].pkg == r.pkg && t.builds[id].num == r.num && RowOk(r)
    ensures TablesOk(WithRow(t, id, r))
  {
    RankedSurvivesUpdate(t.builds, t.builds[id := r]);
  }

  lemma ReapKeepsOk(t: Tables, now: int)
    requires TablesOk(t)
    ensures TablesOk(Reap(t, now))
    ensures forall i | i in t.builds :: !Reap(t, now).builds[i].status.Running?
  {
    RankedSurvivesUpdate(t.builds, Reap(t, now).builds);
  }

  lemma DeleteKeepsOk(t: Tables, p: PkgId)
    requires TablesOk(t)
    ensures TablesOk(DropPackage(t, p))
    ensures forall i | i in DropPackage(t, p).builds :: i in t.builds && DropPackage(t, p).builds[i] == t.builds[i]
  {
    var t' := DropPackage(t, p);
    forall i | i in t'.builds
      ensures t'.builds[i].num == RowNumber(t'.builds, i)
    {
      CountAgrees(t.builds, t'.builds, t.builds[i].pkg, i + 1);
    }
  }

  /**
   The unique index alone would not keep the numbers dense: a number read before the package
   was deleted and its id given to a new package can be inserted without breaking the index.
   */
  lemma UniqueIndexIsNotEnough(t: Tables, p: PkgId, pkg: Package, now: int)
    requires TablesOk(t)
    requires p in t.packages && CountBelow(t.builds, p, t.nextBuildId) > 0
    ensures var stale := NextNum(t, p);
            var reused := PutPackage(DropPackage(t, p), p, pkg);
            && InsertAllowed(reused, p, stale)
            && !Ranked(InsertBuild(reused, p, stale, Manual, Default, now).builds)
  {
    var reused := PutPackage(DropPackage(t, p), p, pkg);
    var t' := InsertBuild(reused, p, NextNum(t, p), Manual, Default, now);
    MaxIsCount(t.builds, p, t.nextBuildId);
    CountAgrees(map[], t'.builds, p, t.nextBuildId);
    NothingToCount(p, t.nextBuildId);
    assert RowNumber(t'.builds, t.nextBuildId) == 1;
  }

  lemma NothingToCount(p: PkgId, hi: BuildId)
    ensures CountBelow(map[], p, hi) == 0
  {
  }

  // -------- list_builds --------

  /** ORDER BY queued_at DESC, id DESC: whether row `i` comes before row `j`. */
  predicate Before(builds: Builds, i: BuildId, j: BuildId)
    requires i in builds && j in builds
  {
    builds[i].queuedAt > builds[j].queuedAt || (builds[i].queuedAt == builds[j].queuedAt && i > j)
  }

  lemma FirstExists(builds: Builds, ids: set<BuildId>) returns (i: BuildId)
    requires ids != {} && ids <= builds.Keys
    ensures i in ids && forall j | j in ids && j != i :: Before(builds, i, j)
  {
    var x :| x in ids;
    assert forall j | j in ids :: j == x || j in ids - {x};
    if ids - {x} == {} {
      i := x;
    } else {
      var k := FirstExists(builds, ids - {x});
      i := if Before(builds, k, x) then k else x;
    }
  }

  /** The given builds, in that order. */
  ghost function Sorted(builds: Builds, ids: set<BuildId>): seq<BuildId>
    requires ids <= builds.Keys
  {
    if ids == {} then []
    else
      assert exists i :: i in ids && forall j | j in ids && j != i :: Before(builds, i, j) by {
        var i := FirstExists(builds, ids);
      }
      var i :| i in ids && forall j | j in ids && j != i :: Before(builds, i, j);
      [i] + Sorted(builds, ids - {i})
  }

  lemma {:induction false} SortedSpec(builds: Builds, ids: set<BuildId>)
    requires ids <= builds.Keys
    ensures |Sorted(builds, ids)| == |ids|
    ensures forall i :: i in Sorted(builds, ids) <==> i in ids
    ensures forall a, b | 0 <= a < b < |Sorted(builds, ids)| :: Before(builds, Sorted(builds, ids)[a], Sorted(builds, ids)[b])
  {
    if ids != {} {
      var first := FirstExists(builds, ids);
      SortedSpec(builds, ids - {Sorted(builds, ids)[0]});
    }
  }

  ghost function WithStatus(builds: Builds, st: Status): set<BuildId> {
    set i | i in builds && builds[i].status == st
  }

  /** SELECT ... WHERE status = ? ORDER BY queued_at DESC, id DESC LIMIT ?. */
  ghost function ListBuilds(builds: Builds, st: Status, limit: nat): seq<BuildId> {
    var all := Sorted(builds, WithStatus(builds, st));
    if |all| <= limit then all else all[..limit]
  }

  /** The newest rows with a status, newest first: all of them when they fit the limit. */
  ghost predicate IsNewest(builds: Builds, st: Status, limit: nat, r: seq<BuildId>) {
    && (forall i | i in r :: i in builds && builds[i].status == st)
    && (forall i, j | i in builds && builds[i].status == st && i !in r && j in r :: Before(builds, j, i))
    && (forall a, b | 0 <= a < b < |r| :: Before(builds, r[a], r[b]))
    && (|WithStatus(builds, st)| <= limit ==> forall i | i in builds && builds[i].status == st :: i in r)
    && |r| == if |WithStatus(builds, st)| <= limit then |WithStatus(builds, st)| else limit
  }

  lemma ListBuildsSpec(builds: Builds, st: Status, limit: nat)
    ensures IsNewest(builds, st, limit, ListBuilds(builds, st, limit))
  {
    SortedSpec(builds, WithStatus(builds, st));
    FrontIsNewest(builds, st, limit, Sorted(builds, WithStatus(builds, st)));
  }

  /** Of all rows in list order, the first ones are the newest. */
  lemma FrontIsNewest(builds: Builds, st: Status, limit: nat, all: seq<BuildId>)
    requires |all| == |WithStatus(builds, st)|
    requires forall i :: i in all <==> i in WithStatus(builds, st)
    requires forall a, b | 0 <= a < b < |all| :: all[a] in builds && all[b] in builds && Before(builds, all[a], all[b])
    ensures IsNewest(builds, st, limit, if |all| <= limit then all else all[..limit])
  {
    var r := if |all| <= limit then all else all[..limit];
    forall i, j | i in builds && builds[i].status == st && i !in r && j in r
      ensures j in builds && Before(builds, j, i)
    {
      assert i in all;
      var a :| 0 <= a < |all| && all[a] == i;
      var b :| 0 <= b < |r| && r[b] == j;
      assert forall k | 0 <= k < |r| :: r[k] == all[k] && r[k] in r;
      assert a >= |r| && Before(builds, all[b], all[a]);
    }
    forall i | i in r
      ensures i in all
    {
      var b :| 0 <= b < |r| && r[b] == i;
      assert all[b] == i;
    }
    forall a, b | 0 <= a < b < |r|
      ensures Before(builds, r[a], r[b])
    {
      assert r[a] == all[a] && r[b] == all[b];
    }
  }

  /** There is only one such list. */
  lemma {:induction false} NewestIsUnique(builds: Builds, st: Status, limit: nat, r: seq<BuildId>, q: seq<BuildId>)
    requires IsNewest(builds, st, limit, r) && IsNewest(builds, st, limit, q)
    ensures r == q
  {
    forall n | 0 <= n < |r|
      ensures r[n] == q[n]
    {
      SamePlace(builds, st, limit, r, q, n);
    }
  }

  lemma {:induction false} SamePlace(builds: Builds, st: Status, limit: nat, r: seq<BuildId>, q: seq<BuildId>, n: nat)
    requires IsNewest(builds, st, limit, r) && IsNewest(builds, st, limit, q)
    requires n < |r|
    ensures r[n] == q[n]
  {
    forall m | 0 <= m < n
      ensures r[m] == q[m]
    {
      SamePlace(builds, st, limit, r, q, m);
    }
    assert r[n] in r && q[n] in q;
    if r[n] != q[n] {
      NotLater(builds, st, limit, r, q, n);
      NotLater(builds, st, limit, q, r, n);
    }
  }

  /** With equal beginnings and different next rows, the next row of `q` comes first. */
  lemma NotLater(builds: Builds, st: Status, limit: nat, r: seq<BuildId>, q: seq<BuildId>, n: nat)
    requires IsNewest(builds, st, limit, r) && IsNewest(builds, st, limit, q)
    requires n < |r| && n < |q| && r[n] != q[n]
    requires forall m | 0 <= m < n :: r[m] == q[m]
    ensures r[n] in builds && q[n] in builds && Before(builds, q[n], r[n])
  {
    assert r[n] in r && q[n] in q;
    forall k | 0 <= k < n
      ensures q[k] != r[n]
    {
      assert Before(builds, r[k], r[n]);
    }
    if r[n] in q {
      var m :| 0 <= m < |q| && q[m] == r[n];
      assert m > n;
    }
  }
}
