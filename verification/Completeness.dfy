/**
 What completeness means: every active variant of every package has a build. And what storing a
 package's variants and queueing some builds does to it, whoever comes in between.
 */
module Completeness {
  import opened Options
  import opened Variants
  import opened Schema

  ghost predicate HasBuild(t: Tables, p: PkgId, v: Variant) {
    exists i :: i in t.builds && t.builds[i].pkg == p && t.builds[i].variant == v
  }

  ghost predicate VariantsBuilt(t: Tables, p: PkgId)
    requires p in t.packages
  {
    forall v: Variant | t.packages[p].variants.IsActive(v) :: HasBuild(t, p, v)
  }

  /** Every active variant of every package has a build. */
  ghost predicate AllBuilt(t: Tables) {
    forall p | p in t.packages :: VariantsBuilt(t, p)
  }

  /** No build of `a` is lost or changed in `b`. */
  ghost predicate KeepsBuilds(a: Tables, b: Tables) {
    forall i | i in a.builds :: i in b.builds && b.builds[i] == a.builds[i]
  }

  lemma StillHasBuild(a: Tables, b: Tables, p: PkgId, v: Variant)
    requires HasBuild(a, p, v) && KeepsBuilds(a, b)
    ensures HasBuild(b, p, v)
  {
    var i :| i in a.builds && a.builds[i].pkg == p && a.builds[i].variant == v;
    assert b.builds[i].variant == v;
  }

  /** The same for all packages but one. */
  ghost predicate OthersBuilt(t: Tables, p: PkgId) {
    forall q | q in t.packages && q != p :: VariantsBuilt(t, q)
  }

  /** One more queued build. */
  function QueuedOne(t: Tables, p: PkgId, v: Variant, trigger: Trigger, now: int): Tables {
    InsertBuild(t, p, NextNum(t, p), trigger, v, now)
  }

  /** One queued build per variant, in order. */
  ghost function EnqueueAll(t: Tables, p: PkgId, vs: seq<Variant>, trigger: Trigger, now: int): Tables {
    if vs == [] then t
    else
      var before := EnqueueAll(t, p, vs[..|vs| - 1], trigger, now);
      QueuedOne(before, p, vs[|vs| - 1], trigger, now)
  }

  /** The ids an insert of `n` builds uses. */
  function IdsFrom(first: BuildId, n: nat): (ids: seq<BuildId>)
    ensures |ids| == n && forall k | 0 <= k < n :: ids[k] == first + k
  {
    seq(n, k requires 0 <= k < n => first + k)
  }

  lemma OneMoreId(ids: seq<BuildId>, first: BuildId, n: nat)
    ensures ids + IdsFrom(first, n) + [first + n] == ids + IdsFrom(first, n + 1)
  {
  }

  lemma OneMoreOf(t: Tables, p: PkgId, vs: seq<Variant>, n: nat, trigger: Trigger, now: int)
    requires n < |vs|
    ensures EnqueueAll(t, p, vs[..n + 1], trigger, now) == QueuedOne(EnqueueAll(t, p, vs[..n], trigger, now), p, vs[n], trigger, now)
  {
    assert vs[..n + 1][..n] == vs[..n];
  }

  /** From `first` on, there is one build per variant, in order. */
  ghost predicate BuildsFor(builds: Builds, first: BuildId, p: PkgId, vs: seq<Variant>) {
    forall i: BuildId | first <= i < first + |vs| :: i in builds && builds[i].pkg == p && builds[i].variant == vs[i - first]
  }

  lemma {:induction false} EnqueueAllFacts(t: Tables, p: PkgId, vs: seq<Variant>, trigger: Trigger, now: int)
    requires IdsBelow(t.builds, t.nextBuildId)
    ensures var t' := EnqueueAll(t, p, vs, trigger, now);
            && t'.packages == t.packages && t'.nextBuildId == t.nextBuildId + |vs|
            && KeepsBuilds(t, t')
            && (forall i | i in t'.builds && i !in t.builds :: t.nextBuildId <= i < t'.nextBuildId)
            && BuildsFor(t'.builds, t.nextBuildId, p, vs)
  {
    if vs != [] {
      EnqueueAllFacts(t, p, vs[..|vs| - 1], trigger, now);
    }
  }

  lemma EnqueueAllBuilds(t: Tables, p: PkgId, vs: seq<Variant>, trigger: Trigger, now: int)
    requires IdsBelow(t.builds, t.nextBuildId)
    ensures forall v | v in vs :: HasBuild(EnqueueAll(t, p, vs, trigger, now), p, v)
  {
    EnqueueAllFacts(t, p, vs, trigger, now);
    forall v | v in vs
      ensures HasBuild(EnqueueAll(t, p, vs, trigger, now), p, v)
    {
      var k :| 0 <= k < |vs| && vs[k] == v;
      var i := t.nextBuildId + k;
      assert EnqueueAll(t, p, vs, trigger, now).builds[i].variant == v;
    }
  }

  /** The variants of a list that are not active in `before`. */
  function NewlyActive(vs: seq<Variant>, before: PackageVariants): seq<Variant> {
    if vs == [] then []
    else NewlyActive(vs[..|vs| - 1], before) + if before.IsActive(vs[|vs| - 1]) then [] else [vs[|vs| - 1]]
  }

  lemma {:induction false} NewlyActiveMembers(vs: seq<Variant>, before: PackageVariants)
    ensures forall v :: v in NewlyActive(vs, before) <==> v in vs && !before.IsActive(v)
  {
    if vs != [] {
      NewlyActiveMembers(vs[..|vs| - 1], before);
      assert vs == vs[..|vs| - 1] + [vs[|vs| - 1]];
    }
  }

  lemma {:induction false} NewlyActiveLength(vs: seq<Variant>, before: PackageVariants)
    ensures |NewlyActive(vs, before)| <= |vs|
  {
    if vs != [] {
      NewlyActiveLength(vs[..|vs| - 1], before);
    }
  }

  /** What is active in a set is not newly active in the same set. */
  lemma NothingNewlyActive(vs: seq<Variant>, pv: PackageVariants)
    requires forall v | v in vs :: pv.IsActive(v)
    ensures NewlyActive(vs, pv) == []
  {
    NewlyActiveMembers(vs, pv);
    assert NewlyActive(vs, pv) != [] ==> NewlyActive(vs, pv)[0] in NewlyActive(vs, pv);
  }

  /** The newly active variants of a part come first among those of the whole. */
  lemma {:induction false} NewlyActivePrefix(vs: seq<Variant>, n: nat, before: PackageVariants)
    requires n <= |vs|
    ensures NewlyActive(vs[..n], before) <= NewlyActive(vs, before)
    decreases |vs|
  {
    if n == |vs| {
      assert vs[..n] == vs;
    } else {
      var front := vs[..|vs| - 1];
      NewlyActivePrefix(front, n, before);
      assert front[..n] == vs[..n];
    }
  }

  /** The next one, at its place. */
  lemma NewlyActiveStep(vs: seq<Variant>, i: nat, before: PackageVariants)
    requires i < |vs|
    ensures var n := |NewlyActive(vs[..i], before)|;
            && |NewlyActive(vs[..i + 1], before)| == n + (if before.IsActive(vs[i]) then 0 else 1)
            && |NewlyActive(vs[..i + 1], before)| <= |NewlyActive(vs, before)|
            && (!before.IsActive(vs[i]) ==> NewlyActive(vs, before)[n] == vs[i])
  {
    assert vs[..i + 1][..i] == vs[..i];
    NewlyActivePrefix(vs, i + 1, before);
  }

  /** A package has a build of a variant afterwards iff it had one before, or one was queued for it. */
  lemma HasBuildAfter(t: Tables, p: PkgId, done: seq<Variant>, trigger: Trigger, now: int, q: PkgId, v: Variant)
    requires IdsBelow(t.builds, t.nextBuildId)
    ensures HasBuild(EnqueueAll(t, p, done, trigger, now), q, v) <==> HasBuild(t, q, v) || (p == q && v in done)
  {
    var t' := EnqueueAll(t, p, done, trigger, now);
    EnqueueAllFacts(t, p, done, trigger, now);
    if HasBuild(t, q, v) {
      StillHasBuild(t, t', q, v);
    }
    if p == q && v in done {
      EnqueueAllBuilds(t, p, done, trigger, now);
    }
    if HasBuild(t', q, v) && !HasBuild(t, q, v) {
      var i :| i in t'.builds && t'.builds[i].pkg == q && t'.builds[i].variant == v;
      assert i !in t.builds;
      assert t'.builds[i].variant == done[i - t.nextBuildId];
    }
  }

  /**
   Package `q` gets the variants `desired`, and builds of the variants `done` are queued for
   package `p`, which need not be the same one. If all other packages were complete, everything is
   complete afterwards exactly when each desired variant had a build or gets one.
   */
  lemma CompleteIff(t: Tables, q: PkgId, desired: PackageVariants, p: PkgId, done: seq<Variant>, trigger: Trigger, now: int)
    requires IdsBelow(t.builds, t.nextBuildId) && q in t.packages && OthersBuilt(t, q)
    ensures AllBuilt(EnqueueAll(PutPackage(t, q, t.packages[q].(variants := desired)), p, done, trigger, now)) <==>
              forall v: Variant | desired.IsActive(v) :: HasBuild(t, q, v) || (p == q && v in done)
  {
    var put := PutPackage(t, q, t.packages[q].(variants := desired));
    var t' := EnqueueAll(put, p, done, trigger, now);
    EnqueueAllFacts(put, p, done, trigger, now);
    forall v: Variant
      ensures HasBuild(t', q, v) <==> HasBuild(t, q, v) || (p == q && v in done)
    {
      HasBuildAfter(put, p, done, trigger, now, q, v);
      assert HasBuild(put, q, v) <==> HasBuild(t, q, v);
    }
    forall r | r in t'.packages && r != q
      ensures VariantsBuilt(t', r)
    {
      assert VariantsBuilt(t, r);
      forall v: Variant | t'.packages[r].variants.IsActive(v)
        ensures HasBuild(t', r, v)
      {
        StillHasBuild(t, t', r, v);
      }
    }
    assert AllBuilt(t') <==> VariantsBuilt(t', q);
  }

  // -------- what a handler stores and queues --------

  function Min(a: nat, b: nat): nat {
    if a < b then a else b
  }

  /** What is left of `n` after `used`. */
  function Left(n: nat, used: nat): nat {
    if n < used then 0 else n - used
  }

  /** How many of `n` builds for package `p` are queued when the database lets `through` more statements through. */
  function Queueable(t: Tables, p: PkgId, n: nat, through: nat): (k: nat)
    ensures k <= n
  {
    if p in t.packages then Min(n, through) else 0
  }

  /** The package of a name. */
  ghost function IdOf(packages: map<PkgId, Package>, name: string): (r: Option<PkgId>)
    ensures r.Some? ==> r.value in packages && packages[r.value].name == name
    ensures r.None? ==> !Known(packages, name)
  {
    if Known(packages, name) then
      var p :| p in packages && packages[p].name == name;
      Some(p)
    else None
  }

  /** Package `q` has a build of each desired variant, or gets one among those queued for `p`. */
  ghost predicate BuiltOrQueued(t: Tables, q: PkgId, desired: PackageVariants, p: PkgId, done: seq<Variant>) {
    forall v: Variant | desired.IsActive(v) :: HasBuild(t, q, v) || (p == q && v in done)
  }

  /** Package `q` with other variants. */
  function WithVariants(t: Tables, q: PkgId, desired: PackageVariants): Tables
    requires q in t.packages
  {
    PutPackage(t, q, t.packages[q].(variants := desired))
  }

  /**
   The variants of `q` are stored and builds of `done` are queued for `p`. If all other packages
   were complete, all are complete afterwards exactly when `q` is.
   */
  ghost predicate StoredAndQueued(t: Tables, t': Tables, q: PkgId, desired: PackageVariants, p: PkgId, done: seq<Variant>, now: int) {
    && q in t.packages && t' == EnqueueAll(WithVariants(t, q, desired), p, done, Manual, now)
    && KeepsBuilds(t, t') && t'.packages == WithVariants(t, q, desired).packages
    && (OthersBuilt(t, q) ==> (AllBuilt(t') <==> BuiltOrQueued(t, q, desired, p, done)))
  }

  lemma StoredFacts(t: Tables, q: PkgId, desired: PackageVariants, p: PkgId, done: seq<Variant>, now: int)
    requires IdsBelow(t.builds, t.nextBuildId) && q in t.packages
    ensures StoredAndQueued(t, EnqueueAll(WithVariants(t, q, desired), p, done, Manual, now), q, desired, p, done, now)
  {
    EnqueueAllFacts(WithVariants(t, q, desired), p, done, Manual, now);
    if OthersBuilt(t, q) {
      CompleteIff(t, q, desired, p, done, Manual, now);
    }
  }

  /** Only package rows differ; that of `p` has the builds it had, and the other packages are as complete as they were. */
  ghost predicate RowStored(was: Tables, t: Tables, p: PkgId) {
    && t == was.(packages := t.packages) && p in t.packages
    && (forall v :: HasBuild(t, p, v) <==> p in was.packages && HasBuild(was, p, v))
    && (AllBuilt(was) ==> OthersBuilt(t, p) && (AllBuilt(t) <==> p in was.packages))
  }

  /** A package row that is new has no build yet; one that was there is as complete as it was. */
  lemma Upserted(was: Tables, t: Tables, p: PkgId)
    requires TablesOk(was)
    requires t == was.(packages := t.packages) && p in t.packages
    requires forall q | q in t.packages && q != p :: q in was.packages && t.packages[q] == was.packages[q]
    requires t.packages[p].variants == if p in was.packages then was.packages[p].variants else DEFAULT_VARIANTS
    ensures RowStored(was, t, p)
  {
    forall q, v | HasBuild(was, q, v)
      ensures HasBuild(t, q, v)
    {
      StillHasBuild(was, t, q, v);
    }
    forall v | HasBuild(t, p, v)
      ensures p in was.packages && HasBuild(was, p, v)
    {
      StillHasBuild(t, was, p, v);
    }
    if AllBuilt(was) {
      forall q | q in t.packages && q in was.packages
        ensures VariantsBuilt(t, q)
      {
        assert VariantsBuilt(was, q);
      }
      assert p !in was.packages ==> !HasBuild(t, p, Default);
    }
  }

  /** A package that was complete needs builds of its newly active variants only. */
  lemma NewlyActiveMatter(t: Tables, q: PkgId, desired: PackageVariants, newly: seq<Variant>, done: seq<Variant>)
    requires q in t.packages && VariantsBuilt(t, q)
    requires forall v :: v in newly <==> desired.IsActive(v) && !t.packages[q].variants.IsActive(v)
    ensures BuiltOrQueued(t, q, desired, q, done) <==> forall v | v in newly :: HasBuild(t, q, v) || v in done
  {
    assert forall v: Variant | t.packages[q].variants.IsActive(v) :: HasBuild(t, q, v);
  }

  /**
   The variants of package `q` are stored and builds of the first `k` newly active ones are queued
   for it. A complete database stays so exactly when each newly active variant had a build or is
   among these.
   */
  ghost predicate VariantsChanged(t: Tables, t': Tables, q: PkgId, desired: PackageVariants, newly: seq<Variant>, k: nat, now: int) {
    && q in t.packages && k <= |newly| && t' == EnqueueAll(WithVariants(t, q, desired), q, newly[..k], Manual, now)
    && (AllBuilt(t) ==> (AllBuilt(t') <==> forall v | v in newly :: HasBuild(t, q, v) || v in newly[..k]))
  }

  lemma Changed(t: Tables, t': Tables, q: PkgId, desired: PackageVariants, newly: seq<Variant>, k: nat, now: int)
    requires k <= |newly| && StoredAndQueued(t, t', q, desired, q, newly[..k], now)
    requires forall v :: v in newly <==> desired.IsActive(v) && !t.packages[q].variants.IsActive(v)
    ensures VariantsChanged(t, t', q, desired, newly, k, now)
  {
    if AllBuilt(t) {
      NewlyActiveMatter(t, q, desired, newly, newly[..k]);
    }
  }

  lemma IdIs(packages: map<PkgId, Package>, name: string, p: PkgId)
    requires NamesDistinct(packages) && p in packages && packages[p].name == name
    ensures IdOf(packages, name) == Some(p)
  {
  }

  /** Other variants leave a package its name. */
  lemma StoredUnderName(t: Tables, q: PkgId, name: string, desired: PackageVariants)
    requires NamesDistinct(t.packages) && q in t.packages && t.packages[q].name == name
    ensures IdOf(t.packages, name) == Some(q) && IdOf(WithVariants(t, q, desired).packages, name) == Some(q)
    ensures desired.default ==> desired.(default := true) == desired
  {
    IdIs(t.packages, name, q);
    IdIs(WithVariants(t, q, desired).packages, name, q);
  }

  /** Each desired variant of the package of this name has a build, or is among the first `k` in build order. */
  ghost predicate AddedWhole(t: Tables, name: string, desired: PackageVariants, k: nat) {
    var q, active := IdOf(t.packages, name), desired.Active();
    forall v: Variant | desired.IsActive(v) :: (q.Some? && HasBuild(t, q.value, v)) || v in active[..Min(|active|, k)]
  }

  /** Judged before or after the upsert, that is the same. */
  lemma StillNamed(was: Tables, t: Tables, p: PkgId, name: string, desired: PackageVariants, k: nat)
    requires NamesDistinct(was.packages)
    requires p in t.packages && IdOf(t.packages, name) == Some(p)
    requires p in was.packages ==> was.packages[p].name == name
    requires p !in was.packages ==> !Known(was.packages, name)
    requires forall v :: HasBuild(t, p, v) <==> p in was.packages && HasBuild(was, p, v)
    ensures AddedWhole(was, name, desired, k) <==>
              BuiltOrQueued(t, p, desired, p, desired.Active()[..Min(|desired.Active()|, k)])
  {
    if p in was.packages {
      IdIs(was.packages, name, p);
    }
  }

  lemma NewlyActiveCount(desired: PackageVariants, before: PackageVariants)
    ensures |NewlyActive(desired.Active(), before)| <= 3
    ensures forall v :: v in NewlyActive(desired.Active(), before) <==> desired.IsActive(v) && !before.IsActive(v)
  {
    NewlyActiveMembers(desired.Active(), before);
    NewlyActiveLength(desired.Active(), before);
  }

  /** More builds of a package harm nobody. */
  lemma Rebuilt(was: Tables, q: PkgId, k: nat, now: int)
    requires IdsBelow(was.builds, was.nextBuildId) && q in was.packages && k <= |was.packages[q].variants.Active()|
    ensures var active := was.packages[q].variants.Active();
            var t := EnqueueAll(was, q, active[..k], Trigger.Rebuild, now);
            && KeepsBuilds(was, t)
            && t.packages == was.packages && (k == |active| ==> VariantsBuilt(t, q))
            && (AllBuilt(was) ==> AllBuilt(t))
  {
    var active := was.packages[q].variants.Active();
    var t := EnqueueAll(was, q, active[..k], Trigger.Rebuild, now);
    EnqueueAllFacts(was, q, active[..k], Trigger.Rebuild, now);
    if k == |active| {
      assert active[..k] == active;
      EnqueueAllBuilds(was, q, active, Trigger.Rebuild, now);
    }
    forall p | p in was.packages && VariantsBuilt(was, p)
      ensures VariantsBuilt(t, p)
    {
      forall v: Variant | t.packages[p].variants.IsActive(v)
        ensures HasBuild(t, p, v)
      {
        StillHasBuild(was, t, p, v);
      }
    }
    if AllBuilt(was) {
      assert forall p | p in t.packages :: VariantsBuilt(was, p);
    }
  }

  lemma Dropped(was: Tables, p: PkgId)
    requires AllBuilt(was)
    ensures AllBuilt(DropPackage(was, p))
  {
    var t := DropPackage(was, p);
    forall q | q in t.packages
      ensures VariantsBuilt(t, q)
    {
      assert VariantsBuilt(was, q);
      forall v: Variant | t.packages[q].variants.IsActive(v)
        ensures HasBuild(t, q, v)
      {
        assert HasBuild(was, q, v);
        var i :| i in was.builds && was.builds[i].pkg == q && was.builds[i].variant == v;
        assert t.builds[i].variant == v;
      }
    }
  }
}
