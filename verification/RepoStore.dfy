/** The signed pacman repositories of paur-repo/src/lib.rs, over a file system of named contents. */
module RepoStore {
  import opened Options
  import opened Variants
  import opened Text

  /** A package archive, a repository database (package name to file name), or a detached signature. */
  datatype Content =
    | Archive(package: string, payload: string)
    | Database(entries: map<string, string>)
    | Signature(signed: Content)
    | Truncated

  type Files = map<string, Content>

  // -------- paths --------

  predicate IsAbsolute(name: string) {
    name != "" && name[0] == '/'
  }

  /** A directory as the front of the paths below it. */
  function Front(dir: string): string {
    if dir == "" || dir[|dir| - 1] == '/' then dir else dir + "/"
  }

  /** `Path::join`: an absolute second part replaces the first. */
  function Join(dir: string, name: string): string {
    if IsAbsolute(name) then name else Front(dir) + name
  }

  function Suffix(v: Variant): string {
    match v
    case Default => ""
    case V3 => "-v3"
    case V4 => "-v4"
  }

  datatype RepoCtx = RepoCtx(repoDir: string, arch: string, repoName: string) {

    function ArchSubdir(v: Variant): string {
      Join(repoDir, arch + Suffix(v))
    }

    function DbBasenameFor(v: Variant): string {
      repoName + Suffix(v) + ".db.tar.gz"
    }

    function DbPathFor(v: Variant): string {
      Join(ArchSubdir(v), DbBasenameFor(v))
    }

    function DbSigFor(v: Variant): string {
      SigOf(DbPathFor(v))
    }

    function StageDir(): string {
      Join(repoDir, ".stage")
    }

    function PlaceOf(v: Variant): Place {
      Place(ArchSubdir(v), StageDir(), repoName + Suffix(v), DbBasenameFor(v))
    }
  }

  function SigOf(path: string): string {
    path + ".sig"
  }

  /** Directly in a directory. */
  predicate InDir(dir: string, path: string) {
    && |Front(dir)| < |path| && path[..|Front(dir)|] == Front(dir)
    && Lacks(path[|Front(dir)|..], '/')
  }

  /** Anywhere below a directory. */
  predicate Under(dir: string, path: string) {
    |Front(dir)| <= |path| && path[..|Front(dir)|] == Front(dir)
  }

  /** A file name, not a path. */
  predicate IsName(name: string) {
    name != "" && Lacks(name, '/')
  }

  lemma NamesAreInDir(dir: string, name: string)
    requires IsName(name)
    ensures InDir(dir, Join(dir, name))
  {
    assert Join(dir, name)[|Front(dir)|..] == name;
  }

  lemma SigPath(dir: string, name: string)
    requires Lacks(name, '/')
    ensures IsName(SigOf(name)) && SigOf(Join(dir, name)) == Join(dir, SigOf(name))
  {
  }

  lemma JoinIsInjective(dir: string, a: string, b: string)
    requires IsName(a) && IsName(b)
    ensures Join(dir, a) == Join(dir, b) <==> a == b
  {
    assert Join(dir, a)[|Front(dir)|..] == a && Join(dir, b)[|Front(dir)|..] == b;
  }

  lemma DbIsName(ctx: RepoCtx, v: Variant)
    requires Lacks(ctx.repoName, '/')
    ensures GoodDb(ctx.PlaceOf(v))
  {
    EndsInZ(ctx.repoName + Suffix(v) + ".db.tar.g");
  }

  lemma EndsInZ(name: string)
    ensures !EndsWithSig(name + "z")
  {
    assert |name| >= 3 ==> (name + "z")[|name| - 3..][3] == 'z';
  }

  /** Where everything is, spelled out, for directories that do not end in a slash. */
  lemma Layout(ctx: RepoCtx)
    requires ctx.repoDir != "" && ctx.repoDir[|ctx.repoDir| - 1] != '/'
    requires ctx.arch != "" && ctx.arch[|ctx.arch| - 1] != '/' && !IsAbsolute(ctx.arch)
    requires Lacks(ctx.repoName, '/')
    ensures ctx.DbPathFor(Default) == ctx.repoDir + "/" + ctx.arch + "/" + (ctx.repoName + ".db.tar.gz")
    ensures ctx.DbPathFor(V3) == ctx.repoDir + "/" + (ctx.arch + "-v3") + "/" + (ctx.repoName + "-v3" + ".db.tar.gz")
    ensures ctx.DbPathFor(V4) == ctx.repoDir + "/" + (ctx.arch + "-v4") + "/" + (ctx.repoName + "-v4" + ".db.tar.gz")
    ensures forall v: Variant ::
              && ctx.PlaceOf(v).DbPath() == ctx.DbPathFor(v)
              && ctx.PlaceOf(v).DbSig() == ctx.DbSigFor(v) == ctx.DbPathFor(v) + ".sig"
              && ctx.PlaceOf(v).stage == ctx.repoDir + "/" + ".stage"
  {
    assert ctx.arch + "" == ctx.arch && ctx.repoName + "" == ctx.repoName;
    EndsBare(ctx.repoDir + "/", ctx.arch);
    EndsBare(ctx.repoDir + "/", ctx.arch + "-v3");
    EndsBare(ctx.repoDir + "/", ctx.arch + "-v4");
  }

  /** An absolute architecture replaces the repository directory. */
  lemma AbsoluteArch(ctx: RepoCtx)
    requires ctx.arch != "" && ctx.arch[0] == '/'
    ensures ctx.ArchSubdir(Default) == ctx.arch
    ensures ctx.ArchSubdir(V3) == ctx.arch + "-v3" && ctx.ArchSubdir(V4) == ctx.arch + "-v4"
  {
    assert ctx.arch + "" == ctx.arch;
  }

  lemma EndsBare(a: string, b: string)
    requires b != "" && b[|b| - 1] != '/'
    ensures Front(a + b) == a + b + "/"
  {
  }

  // -------- isolation of the variants --------

  /** The directories of two variants differ, whatever the architecture is called. */
  lemma DirsDiffer(ctx: RepoCtx, v: Variant, w: Variant)
    requires v != w
    ensures Front(ctx.ArchSubdir(v)) != Front(ctx.ArchSubdir(w))
  {
    if v == Default {
      DefaultDiffers(ctx, w);
    } else if w == Default {
      DefaultDiffers(ctx, v);
    } else {
      SuffixStays(ctx, v);
      SuffixStays(ctx, w);
    }
  }

  lemma SuffixStays(ctx: RepoCtx, v: Variant)
    requires v != Default
    ensures var f := Front(ctx.ArchSubdir(v));
            |f| >= 2 && f[|f| - 2] == if v == V3 then '3' else '4'
  {
    var d := ctx.ArchSubdir(v);
    assert d[|d| - 1] == Suffix(v)[2];
  }

  lemma DefaultDiffers(ctx: RepoCtx, v: Variant)
    requires v != Default
    ensures |Front(ctx.ArchSubdir(Default))| < |Front(ctx.ArchSubdir(v))|
  {
    assert ctx.arch + Suffix(Default) == ctx.arch;
    assert IsAbsolute(ctx.arch + Suffix(v)) <==> IsAbsolute(ctx.arch);
    SuffixStays(ctx, v);
  }

  lemma FrontIsLongest(d: string, e: string, path: string)
    requires InDir(d, path) && InDir(e, path)
    ensures |Front(e)| <= |Front(d)|
  {
    var m, n := |Front(d)|, |Front(e)|;
    forall i | m <= i < |path|
      ensures path[i] != '/'
    {
      assert path[i] == path[m..][i - m];
    }
    if n > 0 {
      assert path[n - 1] == path[..n][n - 1];
    }
  }

  /** No path belongs to two directories with different fronts. */
  lemma OneDirectory(d: string, e: string, path: string)
    requires InDir(d, path) && InDir(e, path)
    ensures Front(d) == Front(e)
  {
    FrontIsLongest(d, e, path);
    FrontIsLongest(e, d, path);
  }

  /** For any architecture string, no path is a file of two variants. */
  lemma VariantsAreDisjoint(ctx: RepoCtx, v: Variant, w: Variant, path: string)
    requires v != w
    ensures !(InDir(ctx.ArchSubdir(v), path) && InDir(ctx.ArchSubdir(w), path))
  {
    DirsDiffer(ctx, v, w);
    if InDir(ctx.ArchSubdir(v), path) && InDir(ctx.ArchSubdir(w), path) {
      OneDirectory(ctx.ArchSubdir(v), ctx.ArchSubdir(w), path);
    }
  }

  /** Either all files of a variant are below the staging directory or none is. */
  lemma StageTakesAllOrNone(stage: string, dir: string, path: string)
    requires InDir(dir, path)
    ensures Under(stage, path) <==> Under(stage, Front(dir))
  {
    var s, f := Front(stage), Front(dir);
    assert s != "" ==> s[|s| - 1] == '/';
    if |s| <= |f| {
      assert path[..|s|] == f[..|s|];
    } else if |s| <= |path| {
      assert path[|s| - 1] == path[|f|..][|s| - 1 - |f|];
      assert path[..|s|][|s| - 1] == path[|s| - 1];
    }
  }

  /** The front of a directory below `r`, character by character. */
  lemma FrontOf(repoDir: string, name: string)
    requires !IsAbsolute(name)
    ensures var r, f := Front(repoDir), Front(Join(repoDir, name));
            && (name != "" && name[|name| - 1] != '/' ==> f == r + name + "/")
            && (name != "" && name[|name| - 1] == '/' ==> f == r + name)
            && (name == "" ==> f == r)
  {
    if name == "" {
      assert Front(repoDir) + name == Front(repoDir);
    }
  }

  lemma UnderBelow(r: string, s: string, t: string)
    ensures |s| <= |t| && t[..|s|] == s <==> |r + s| <= |r + t| && (r + t)[..|r + s|] == r + s
  {
    if |s| <= |t| {
      assert (r + t)[..|r + s|] == r + t[..|s|];
      assert t[..|s|] == (r + t[..|s|])[|r|..];
    }
  }

  /** What the front of a variant's directory adds to that of the repository. */
  function Tail(ctx: RepoCtx, v: Variant): string {
    var a := ctx.arch + Suffix(v);
    if a == "" || a[|a| - 1] == '/' then a else a + "/"
  }

  lemma FrontIsTail(ctx: RepoCtx, v: Variant)
    requires !IsAbsolute(ctx.arch)
    ensures Front(ctx.ArchSubdir(v)) == Front(ctx.repoDir) + Tail(ctx, v)
    ensures Front(ctx.StageDir()) == Front(ctx.repoDir) + ".stage/"
  {
    var a, r := ctx.arch + Suffix(v), Front(ctx.repoDir);
    FrontOf(ctx.repoDir, a);
    FrontOf(ctx.repoDir, ".stage");
    Assoc(r, a, "/");
    Assoc(r, ".stage", "/");
    assert ".stage" + "/" == ".stage/";
    assert r + "" == r;
  }

  lemma TailInStage(ctx: RepoCtx, v: Variant)
    ensures |Tail(ctx, v)| >= 7 && Tail(ctx, v)[..7] == ".stage/" <==>
              (|ctx.arch| > 6 && ctx.arch[..7] == ".stage/") || (v == Default && ctx.arch == ".stage")
  {
    var t, arch := Tail(ctx, v), ctx.arch;
    assert forall i | 0 <= i < |arch| :: t[i] == arch[i];
    if |arch| > 6 {
      assert t[..7] == arch[..7];
    } else if v != Default {
      assert t[|arch|] == '-';
      if |t| >= 7 {
        assert t[|arch|] == t[..7][|arch|] && ".stage/"[|arch|] != '-';
      }
    } else if |t| >= 7 {
      assert t[..7] == arch + "/";
      assert arch == (arch + "/")[..6] && ".stage" == ".stage/"[..6];
    }
  }

  /**
   When that happens, for an architecture that is a relative path: its first part is ".stage". The
   default directory is caught by the plain name already.
   */
  lemma InStageIff(ctx: RepoCtx, v: Variant)
    requires !IsAbsolute(ctx.arch)
    ensures ctx.PlaceOf(v).InStage() <==>
              (|ctx.arch| > 6 && ctx.arch[..7] == ".stage/") || (v == Default && ctx.arch == ".stage")
  {
    FrontIsTail(ctx, v);
    UnderBelow(Front(ctx.repoDir), ".stage/", Tail(ctx, v));
    TailInStage(ctx, v);
  }

  // -------- the files of a variant --------

  predicate EndsWithSig(name: string) {
    |name| >= 4 && name[|name| - 4..] == ".sig"
  }

  lemma SigEnds(name: string)
    ensures EndsWithSig(SigOf(name))
  {
  }

  lemma SigIsInjective(a: string, b: string)
    ensures SigOf(a) == SigOf(b) <==> a == b
  {
    assert SigOf(a)[..|SigOf(a)| - 4] == a && SigOf(b)[..|SigOf(b)| - 4] == b;
  }

  /** Where a variant lives: its directory, the staging directory, the names of its repository and its database. */
  datatype Place = Place(dir: string, stage: string, repo: string, db: string) {

    function PathOf(name: string): string {
      Join(dir, name)
    }

    function DbPath(): string {
      PathOf(db)
    }

    function DbSig(): string {
      SigOf(DbPath())
    }

    /** The whole directory lies below the staging directory. */
    predicate InStage() {
      Under(stage, Front(dir))
    }
  }

  predicate GoodDb(at: Place) {
    IsName(at.db) && !EndsWithSig(at.db)
  }

  /** The file of a variant with a given name. */
  function FileAt(files: Files, at: Place, name: string): Option<Content> {
    var path := at.PathOf(name);
    if path in files then Some(files[path]) else None
  }

  /** A file with a signature of its present content. */
  predicate IsSigned(files: Files, at: Place, name: string) {
    var file := FileAt(files, at, name);
    file.Some? && FileAt(files, at, SigOf(name)) == Some(Signature(file.value))
  }

  /** What `repo-add` and `repo-remove` write besides the database: links, the list of files, old copies, the lock. */
  predicate IsBeside(at: Place, name: string) {
    || name == at.repo + ".db"
    || name == at.repo + ".files"
    || name == at.repo + ".files.tar.gz"
    || name == at.repo + ".db.tar.gz.old"
    || name == at.repo + ".files.tar.gz.old"
    || name == at.repo + ".db.tar.gz.lck"
  }

  /** These files and their signatures; none of them is the database or its signature. */
  predicate IsCompanion(at: Place, name: string) {
    && name != at.db && name != SigOf(at.db)
    && (IsBeside(at, name) || (EndsWithSig(name) && IsBeside(at, name[..|name| - 4])))
  }

  lemma BesideIsNoSig(at: Place, name: string)
    requires IsBeside(at, name)
    ensures !EndsWithSig(name)
  {
    if |name| >= 4 {
      assert name[|name| - 4..][3] == name[|name| - 1] != 'g';
    }
  }

  /** Names an artifact may have: file names that are neither signatures nor the repository's own. */
  predicate GoodName(at: Place, name: string) {
    IsName(name) && !EndsWithSig(name) && name != at.db && !IsBeside(at, name)
  }

  lemma GoodIsNoCompanion(at: Place, name: string)
    requires GoodName(at, name)
    ensures !IsCompanion(at, name) && !IsCompanion(at, SigOf(name))
  {
    if IsBeside(at, SigOf(name)) {
      BesideIsNoSig(at, SigOf(name));
      SigEnds(name);
    }
    assert SigOf(name)[..|SigOf(name)| - 4] == name;
  }

  /** Writing one file of a variant changes no other. */
  lemma WriteAt(files: Files, at: Place, name: string, c: Content, other: string)
    requires IsName(name) && IsName(other)
    ensures FileAt(files[at.PathOf(name) := c], at, other) == if other == name then Some(c) else FileAt(files, at, other)
    ensures FileAt(files - {at.PathOf(name)}, at, other) == if other == name then None else FileAt(files, at, other)
  {
    JoinIsInjective(at.dir, name, other);
  }

  // -------- what the calls do to the files --------

  datatype Artifact = Artifact(name: string, content: Content)

  predicate GoodNames(at: Place, artifacts: seq<Artifact>) {
    forall i | 0 <= i < |artifacts| :: GoodName(at, artifacts[i].name)
  }

  predicate AreNames(artifacts: seq<Artifact>) {
    forall i | 0 <= i < |artifacts| :: IsName(artifacts[i].name)
  }

  /** What the copied files hold: of two artifacts with one name the later one wins. */
  function Copies(artifacts: seq<Artifact>): map<string, Content> {
    if artifacts == [] then map[]
    else
      var last := artifacts[|artifacts| - 1];
      Copies(artifacts[..|artifacts| - 1])[last.name := last.content]
  }

  function WithCopies(files: Files, at: Place, artifacts: seq<Artifact>): Files {
    if artifacts == [] then files
    else
      var last := artifacts[|artifacts| - 1];
      WithCopies(files, at, artifacts[..|artifacts| - 1])[at.PathOf(last.name) := last.content]
  }

  /** Copies of the same files in the staging directory; copying a file onto itself truncates it. */
  function WithStaged(files: Files, at: Place, artifacts: seq<Artifact>): Files {
    if artifacts == [] then files
    else
      var before := WithStaged(files, at, artifacts[..|artifacts| - 1]);
      var name := artifacts[|artifacts| - 1].name;
      var from, to := at.PathOf(name), Join(at.stage, name);
      if from !in before then before else before[to := if from == to then Truncated else before[from]]
  }

  /** What is staged under the names of the artifacts. */
  function StagedContents(files: Files, at: Place, artifacts: seq<Artifact>): map<string, Content> {
    map name | name in Copies(artifacts) && Join(at.stage, name) in files :: files[Join(at.stage, name)]
  }

  /** `repo-add`: each archive becomes the entry of its package. */
  function Added(entries: map<string, string>, artifacts: seq<Artifact>, contents: map<string, Content>): map<string, string> {
    if artifacts == [] then entries
    else
      var name := artifacts[|artifacts| - 1].name;
      var before := Added(entries, artifacts[..|artifacts| - 1], contents);
      if name in contents && contents[name].Archive? then before[contents[name].package := name] else before
  }

  /** A missing database, or a file that is none, lists nothing. */
  function EntriesOf(db: Option<Content>): (r: map<string, string>)
    ensures forall entries :: db == Some(Database(entries)) ==> r == entries
    ensures r != map[] ==> db == Some(Database(r))
  {
    if db.Some? && db.value.Database? then db.value.entries else map[]
  }

  /** A signature next to each artifact. */
  function WithSigs(files: Files, at: Place, artifacts: seq<Artifact>): Files {
    if artifacts == [] then files
    else
      var before := WithSigs(files, at, artifacts[..|artifacts| - 1]);
      var path := at.PathOf(artifacts[|artifacts| - 1].name);
      if path in before then before[SigOf(path) := Signature(before[path])] else before
  }

  function WithoutStage(files: Files, at: Place): Files {
    map path | path in files && !Under(at.stage, path) :: files[path]
  }

  /** One write or deletion of a file. */
  datatype Change = Change(name: string, content: Option<Content>)

  /** What the container's tool does to the companions; it writes nothing else but the database. */
  function WithCompanions(files: Files, at: Place, changes: seq<Change>): Files {
    if changes == [] then files
    else
      var before, last := WithCompanions(files, at, changes[..|changes| - 1]), changes[|changes| - 1];
      if !IsName(last.name) || !IsCompanion(at, last.name) then before
      else if last.content.Some? then before[at.PathOf(last.name) := last.content.value]
      else before - {at.PathOf(last.name)}
  }

  /** The database and a fresh signature of it. */
  function WithDatabase(files: Files, at: Place, entries: map<string, string>): Files {
    var db := Database(entries);
    files[at.DbPath() := db][at.DbSig() := Signature(db)]
  }

  /** All of a successful publish. */
  function Published(files: Files, at: Place, artifacts: seq<Artifact>, changes: seq<Change>): Files {
    var copied := WithCopies(files, at, artifacts);
    var staged := WithStaged(copied, at, artifacts);
    var entries := Added(EntriesOf(FileAt(staged, at, at.db)), artifacts, StagedContents(staged, at, artifacts));
    WithoutStage(WithSigs(WithDatabase(WithCompanions(staged, at, changes), at, entries), at, artifacts), at)
  }

  /** All of a successful removal. */
  function Removed(files: Files, at: Place, package: string, changes: seq<Change>): Files {
    WithDatabase(WithCompanions(files, at, changes), at, EntriesOf(FileAt(files, at, at.db)) - {package})
  }

  // -------- what that means, name by name --------

  lemma {:induction false} CopiesAt(files: Files, at: Place, artifacts: seq<Artifact>, name: string)
    requires GoodNames(at, artifacts) && IsName(name)
    ensures var copies := Copies(artifacts);
            FileAt(WithCopies(files, at, artifacts), at, name) == if name in copies then Some(copies[name]) else FileAt(files, at, name)
  {
    if artifacts != [] {
      var front, last := artifacts[..|artifacts| - 1], artifacts[|artifacts| - 1];
      CopiesAt(files, at, front, name);
      WriteAt(WithCopies(files, at, front), at, last.name, last.content, name);
    }
  }

  lemma {:induction false} CopiedNames(at: Place, artifacts: seq<Artifact>)
    requires GoodNames(at, artifacts)
    ensures forall i | 0 <= i < |artifacts| :: artifacts[i].name in Copies(artifacts)
    ensures forall name | name in Copies(artifacts) :: GoodName(at, name)
  {
    if artifacts != [] {
      var front := artifacts[..|artifacts| - 1];
      CopiedNames(at, front);
      assert artifacts == front + [artifacts[|artifacts| - 1]];
    }
  }

  /** Staging does not touch the files of a variant outside the staging directory. */
  lemma {:induction false} StagedAt(files: Files, at: Place, other: Place, artifacts: seq<Artifact>, name: string)
    requires GoodNames(at, artifacts) && IsName(name) && at.stage == other.stage && !other.InStage()
    ensures FileAt(WithStaged(files, at, artifacts), other, name) == FileAt(files, other, name)
  {
    if artifacts != [] {
      StagedAt(files, at, other, artifacts[..|artifacts| - 1], name);
      OutsideStage(other, name);
      StagePath(at, artifacts[|artifacts| - 1].name);
    }
  }

  lemma OutsideStage(at: Place, name: string)
    requires IsName(name)
    ensures InDir(at.dir, at.PathOf(name))
    ensures Under(at.stage, at.PathOf(name)) <==> at.InStage()
  {
    NamesAreInDir(at.dir, name);
    StageTakesAllOrNone(at.stage, at.dir, at.PathOf(name));
  }

  lemma StagePath(at: Place, name: string)
    requires IsName(name)
    ensures Under(at.stage, Join(at.stage, name))
  {
  }

  /** What is staged is what was copied. */
  lemma {:induction false} StagedIs(files: Files, at: Place, artifacts: seq<Artifact>, name: string)
    requires GoodNames(at, artifacts) && !at.InStage()
    requires name in Copies(artifacts) && FileAt(files, at, name).Some?
    ensures var path, staged := Join(at.stage, name), WithStaged(files, at, artifacts);
            path in staged && staged[path] == FileAt(files, at, name).value
  {
    var front, last := artifacts[..|artifacts| - 1], artifacts[|artifacts| - 1].name;
    CopiedNames(at, artifacts);
    OutsideStage(at, last);
    StagePath(at, last);
    if last == name {
      StagedAt(files, at, at, front, name);
    } else {
      JoinIsInjective(at.stage, last, name);
      StagedIs(files, at, front, name);
    }
  }

  lemma StagedContentsAre(files: Files, at: Place, artifacts: seq<Artifact>)
    requires GoodNames(at, artifacts) && !at.InStage()
    ensures var copied := WithCopies(files, at, artifacts);
            StagedContents(WithStaged(copied, at, artifacts), at, artifacts) == Copies(artifacts)
  {
    var copied := WithCopies(files, at, artifacts);
    var staged := WithStaged(copied, at, artifacts);
    CopiedNames(at, artifacts);
    forall name | name in Copies(artifacts)
      ensures Join(at.stage, name) in staged && staged[Join(at.stage, name)] == Copies(artifacts)[name]
    {
      CopiesAt(files, at, artifacts, name);
      StagedIs(copied, at, artifacts, name);
    }
  }

  /** Signing changes no file but the signatures of the artifacts. */
  lemma {:induction false} SigsAt(files: Files, at: Place, artifacts: seq<Artifact>, name: string)
    requires GoodNames(at, artifacts) && Lacks(name, '/')
    requires forall n | n in Copies(artifacts) :: FileAt(files, at, n).Some?
    ensures var after := WithSigs(files, at, artifacts);
            && (name != "" && !EndsWithSig(name) ==> FileAt(after, at, name) == FileAt(files, at, name))
            && FileAt(after, at, SigOf(name)) ==
                 if name in Copies(artifacts)
                 then Some(Signature(FileAt(files, at, name).value))
                 else FileAt(files, at, SigOf(name))
  {
    if artifacts != [] {
      var front, last := artifacts[..|artifacts| - 1], artifacts[|artifacts| - 1].name;
      SigsAt(files, at, front, name);
      SigsAt(files, at, front, last);
      var before := WithSigs(files, at, front);
      SigPath(at.dir, last);
      SigPath(at.dir, name);
      var sig := Signature(FileAt(files, at, last).value);
      if name != "" {
        WriteAt(before, at, SigOf(last), sig, name);
      }
      WriteAt(before, at, SigOf(last), sig, SigOf(name));
      SigIsInjective(last, name);
      SigEnds(last);
    }
  }

  /** The tool may leave anything at all in a companion. */
  lemma CompanionIsFree(files: Files, at: Place, name: string, c: Option<Content>)
    requires IsName(name) && IsCompanion(at, name)
    ensures FileAt(WithCompanions(files, at, [Change(name, c)]), at, name) == c
  {
    assert WithCompanions(files, at, []) == files;
    WriteAt(files, at, name, if c.Some? then c.value else Truncated, name);
  }

  lemma {:induction false} CompanionsAt(files: Files, at: Place, changes: seq<Change>, name: string)
    requires IsName(name) && !IsCompanion(at, name)
    ensures FileAt(WithCompanions(files, at, changes), at, name) == FileAt(files, at, name)
  {
    if changes != [] {
      var front, last := changes[..|changes| - 1], changes[|changes| - 1];
      CompanionsAt(files, at, front, name);
      if IsName(last.name) && IsCompanion(at, last.name) {
        var c := if last.content.Some? then last.content.value else Truncated;
        WriteAt(WithCompanions(files, at, front), at, last.name, c, name);
      }
    }
  }

  /** The names of a variant's files that a publish may change. */
  predicate Touches(at: Place, artifacts: seq<Artifact>, name: string) {
    || name in Copies(artifacts)
    || name == at.db
    || IsCompanion(at, name)
    || (EndsWithSig(name) && (name[..|name| - 4] in Copies(artifacts) || name[..|name| - 4] == at.db))
  }

  /** No later artifact has the name of artifact `i`. */
  predicate IsLastNamed(artifacts: seq<Artifact>, i: nat) {
    i < |artifacts| && forall j | i < j < |artifacts| :: artifacts[j].name != artifacts[i].name
  }

  /** Among the named contents, artifact `i` is an archive of package `p`. */
  predicate Packs(contents: map<string, Content>, artifacts: seq<Artifact>, i: nat, p: string) {
    && i < |artifacts| && artifacts[i].name in contents
    && contents[artifacts[i].name].Archive? && contents[artifacts[i].name].package == p
  }

  /** The last one that is. */
  predicate IsLastOf(contents: map<string, Content>, artifacts: seq<Artifact>, i: nat, p: string) {
    Packs(contents, artifacts, i, p) && forall j: nat | i < j < |artifacts| :: !Packs(contents, artifacts, j, p)
  }

  /**
   Each package that the artifacts hold is listed with the name of its last archive, and every
   other package as before or not at all.
   */
  ghost predicate ListsArtifacts(before: map<string, string>, after: map<string, string>, contents: map<string, Content>,
                                 artifacts: seq<Artifact>) {
    forall p :: EntryFollows(before, after, contents, artifacts, p)
  }

  ghost predicate EntryFollows(before: map<string, string>, after: map<string, string>, contents: map<string, Content>,
                               artifacts: seq<Artifact>, p: string) {
    && (forall i: nat | IsLastOf(contents, artifacts, i, p) :: p in after && after[p] == artifacts[i].name)
    && ((forall i: nat :: !Packs(contents, artifacts, i, p)) ==>
          (p in after <==> p in before) && (p in after ==> after[p] == before[p]))
  }

  /**
   A successful publish: every artifact is there and signed, the database has the entries of the
   artifacts over the ones it had and is signed, and every other file of the variant is as before,
   except the database's companions.
   */
  ghost predicate IsPublished(a: Files, b: Files, at: Place, artifacts: seq<Artifact>) {
    var db := at.db;
    && (forall i: nat | IsLastNamed(artifacts, i) ::
          IsSigned(b, at, artifacts[i].name) && FileAt(b, at, artifacts[i].name) == Some(artifacts[i].content))
    && ListsArtifacts(EntriesOf(FileAt(a, at, db)), EntriesOf(FileAt(b, at, db)), Copies(artifacts), artifacts)
    && (forall name | name in Copies(artifacts) ::
          IsSigned(b, at, name) && FileAt(b, at, name) == Some(Copies(artifacts)[name]))
    && IsSigned(b, at, db)
    && FileAt(b, at, db) == Some(Database(Added(EntriesOf(FileAt(a, at, db)), artifacts, Copies(artifacts))))
    && (forall name | IsName(name) && !Touches(at, artifacts, name) :: FileAt(b, at, name) == FileAt(a, at, name))
  }

  /** A successful removal: only the entry is gone, the database is signed again, and only companions may differ. */
  ghost predicate IsRemoved(a: Files, b: Files, at: Place, package: string) {
    var db := at.db;
    && IsSigned(b, at, db)
    && FileAt(b, at, db) == Some(Database(EntriesOf(FileAt(a, at, db)) - {package}))
    && (forall name | IsName(name) && name != db && name != SigOf(db) && !IsCompanion(at, name) ::
          FileAt(b, at, name) == FileAt(a, at, name))
  }

  lemma DatabaseAt(files: Files, at: Place, entries: map<string, string>, name: string)
    requires GoodDb(at) && IsName(name)
    ensures var db := at.db;
            FileAt(WithDatabase(files, at, entries), at, name) ==
              if name == db then Some(Database(entries))
              else if name == SigOf(db) then Some(Signature(Database(entries)))
              else FileAt(files, at, name)
  {
    var db := at.db;
    SigPath(at.dir, db);
    WriteAt(files, at, db, Database(entries), name);
    WriteAt(files[at.DbPath() := Database(entries)], at, SigOf(db), Signature(Database(entries)), name);
  }

  lemma NoStageAt(files: Files, at: Place, name: string)
    requires IsName(name) && !at.InStage()
    ensures FileAt(WithoutStage(files, at), at, name) == FileAt(files, at, name)
  {
    OutsideStage(at, name);
  }

  lemma PublishedAt(files: Files, at: Place, artifacts: seq<Artifact>, changes: seq<Change>, name: string)
    requires GoodDb(at) && GoodNames(at, artifacts) && !at.InStage() && IsName(name)
    ensures var b, db, copies := Published(files, at, artifacts, changes), at.db, Copies(artifacts);
            var entries := Added(EntriesOf(FileAt(files, at, db)), artifacts, copies);
            && (name in copies ==> FileAt(b, at, name) == Some(copies[name])
                                   && FileAt(b, at, SigOf(name)) == Some(Signature(copies[name])))
            && FileAt(b, at, db) == Some(Database(entries)) && FileAt(b, at, SigOf(db)) == Some(Signature(Database(entries)))
            && (!Touches(at, artifacts, name) ==> FileAt(b, at, name) == FileAt(files, at, name))
  {
    var db, copies := at.db, Copies(artifacts);
    var copied := WithCopies(files, at, artifacts);
    var staged := WithStaged(copied, at, artifacts);
    CopiedNames(at, artifacts);
    BeforeSigning(files, at, artifacts, db);
    StagedContentsAre(files, at, artifacts);
    var entries := Added(EntriesOf(FileAt(files, at, db)), artifacts, copies);
    var f := WithDatabase(WithCompanions(staged, at, changes), at, entries);
    forall n | n in copies
      ensures FileAt(f, at, n) == Some(copies[n])
    {
      GoodIsNoCompanion(at, n);
      SigEnds(db);
      RanAt(files, at, artifacts, changes, entries, n);
    }
    Signing(f, at, artifacts, name);
    Signing(f, at, artifacts, db);
    SigPath(at.dir, db);
    RanAt(files, at, artifacts, changes, entries, db);
    RanAt(files, at, artifacts, changes, entries, SigOf(db));
    RanAt(files, at, artifacts, changes, entries, name);
    if EndsWithSig(name) && !Touches(at, artifacts, name) {
      var base := name[..|name| - 4];
      assert SigOf(base) == name;
      Signing(f, at, artifacts, base);
    }
  }

  /** What a file of the variant is after the container, its database being signed. */
  lemma RanAt(files: Files, at: Place, artifacts: seq<Artifact>, changes: seq<Change>, entries: map<string, string>, name: string)
    requires GoodDb(at) && GoodNames(at, artifacts) && !at.InStage() && IsName(name)
    ensures var staged := WithStaged(WithCopies(files, at, artifacts), at, artifacts);
            var file := FileAt(WithDatabase(WithCompanions(staged, at, changes), at, entries), at, name);
            if name == at.db then file == Some(Database(entries))
            else if name == SigOf(at.db) then file == Some(Signature(Database(entries)))
            else IsCompanion(at, name) || file == if name in Copies(artifacts) then Some(Copies(artifacts)[name]) else FileAt(files, at, name)
  {
    var staged := WithStaged(WithCopies(files, at, artifacts), at, artifacts);
    BeforeSigning(files, at, artifacts, name);
    DatabaseAt(WithCompanions(staged, at, changes), at, entries, name);
    if !IsCompanion(at, name) {
      CompanionsAt(staged, at, changes, name);
    }
  }

  /** What a file of the variant is when the container starts. */
  lemma BeforeSigning(files: Files, at: Place, artifacts: seq<Artifact>, name: string)
    requires GoodNames(at, artifacts) && !at.InStage() && IsName(name)
    ensures var staged := WithStaged(WithCopies(files, at, artifacts), at, artifacts);
            FileAt(staged, at, name) == if name in Copies(artifacts) then Some(Copies(artifacts)[name]) else FileAt(files, at, name)
  {
    CopiesAt(files, at, artifacts, name);
    StagedAt(WithCopies(files, at, artifacts), at, at, artifacts, name);
  }

  lemma Signing(f: Files, at: Place, artifacts: seq<Artifact>, name: string)
    requires GoodNames(at, artifacts) && !at.InStage() && Lacks(name, '/')
    requires forall n | n in Copies(artifacts) :: FileAt(f, at, n) == Some(Copies(artifacts)[n])
    ensures var b := WithoutStage(WithSigs(f, at, artifacts), at);
            && (name != "" && !EndsWithSig(name) ==> FileAt(b, at, name) == FileAt(f, at, name))
            && FileAt(b, at, SigOf(name)) ==
                 if name in Copies(artifacts) then Some(Signature(Copies(artifacts)[name])) else FileAt(f, at, SigOf(name))
  {
    SigsAt(f, at, artifacts, name);
    SigPath(at.dir, name);
    if name != "" {
      NoStageAt(WithSigs(f, at, artifacts), at, name);
    }
    NoStageAt(WithSigs(f, at, artifacts), at, SigOf(name));
  }

  lemma PublishedSpec(files: Files, at: Place, artifacts: seq<Artifact>, changes: seq<Change>)
    requires GoodDb(at) && GoodNames(at, artifacts) && !at.InStage()
    ensures IsPublished(files, Published(files, at, artifacts, changes), at, artifacts)
  {
    var b := Published(files, at, artifacts, changes);
    CopiedNames(at, artifacts);
    forall name | IsName(name)
      ensures name in Copies(artifacts) ==> IsSigned(b, at, name) && FileAt(b, at, name) == Some(Copies(artifacts)[name])
      ensures !Touches(at, artifacts, name) ==> FileAt(b, at, name) == FileAt(files, at, name)
    {
      PublishedAt(files, at, artifacts, changes, name);
    }
    PublishedAt(files, at, artifacts, changes, at.db);
    AddedLists(EntriesOf(FileAt(files, at, at.db)), artifacts, Copies(artifacts));
    AllCopied(artifacts);
  }

  lemma AllCopied(artifacts: seq<Artifact>)
    ensures forall i: nat | IsLastNamed(artifacts, i) ::
              artifacts[i].name in Copies(artifacts) && Copies(artifacts)[artifacts[i].name] == artifacts[i].content
  {
    forall i: nat | IsLastNamed(artifacts, i)
      ensures artifacts[i].name in Copies(artifacts) && Copies(artifacts)[artifacts[i].name] == artifacts[i].content
    {
      CopiesAre(artifacts, i);
    }
  }

  /** Of the artifacts with one name, the last one is copied last. */
  lemma {:induction false} CopiesAre(artifacts: seq<Artifact>, i: nat)
    requires IsLastNamed(artifacts, i)
    ensures artifacts[i].name in Copies(artifacts) && Copies(artifacts)[artifacts[i].name] == artifacts[i].content
  {
    if i < |artifacts| - 1 {
      CopiesAre(artifacts[..|artifacts| - 1], i);
    }
  }

  lemma AddedLists(entries: map<string, string>, artifacts: seq<Artifact>, contents: map<string, Content>)
    ensures ListsArtifacts(entries, Added(entries, artifacts, contents), contents, artifacts)
  {
    forall p
      ensures EntryFollows(entries, Added(entries, artifacts, contents), contents, artifacts, p)
    {
      EntryAdded(entries, artifacts, contents, p);
    }
  }

  lemma {:induction false} EntryAdded(entries: map<string, string>, artifacts: seq<Artifact>, contents: map<string, Content>, p: string)
    ensures EntryFollows(entries, Added(entries, artifacts, contents), contents, artifacts, p)
  {
    if artifacts != [] {
      var n := |artifacts| - 1;
      var front := artifacts[..n];
      EntryAdded(entries, front, contents, p);
      assert forall i: nat | i < n :: Packs(contents, artifacts, i, p) <==> Packs(contents, front, i, p);
      if !Packs(contents, artifacts, n, p) {
        forall i: nat | IsLastOf(contents, artifacts, i, p)
          ensures IsLastOf(contents, front, i, p)
        {
        }
      }
    }
  }

  lemma RemovedSpec(files: Files, at: Place, package: string, changes: seq<Change>)
    requires GoodDb(at)
    ensures IsRemoved(files, Removed(files, at, package, changes), at, package)
  {
    var db, ran := at.db, WithCompanions(files, at, changes);
    var entries := EntriesOf(FileAt(files, at, db)) - {package};
    SigPath(at.dir, db);
    SigEnds(db);
    DatabaseAt(ran, at, entries, db);
    DatabaseAt(ran, at, entries, SigOf(db));
    forall name | IsName(name) && name != db && name != SigOf(db) && !IsCompanion(at, name)
      ensures FileAt(Removed(files, at, package, changes), at, name) == FileAt(files, at, name)
    {
      CompanionsAt(files, at, changes, name);
      DatabaseAt(ran, at, entries, name);
    }
  }

  // -------- the other variants --------

  /** The same content, or no file, at a path. */
  predicate Same(a: Files, b: Files, path: string) {
    (path in a <==> path in b) && (path in a && path in b ==> a[path] == b[path])
  }

  /** Only files of `v` and staged files may differ. */
  ghost predicate OnlyTouches(at: Place, a: Files, b: Files) {
    forall path | !InDir(at.dir, path) && !Under(at.stage, path) :: Same(a, b, path)
  }

  lemma {:induction false} CopiesTouch(files: Files, at: Place, artifacts: seq<Artifact>)
    requires AreNames(artifacts)
    ensures OnlyTouches(at, files, WithCopies(files, at, artifacts))
  {
    if artifacts != [] {
      CopiesTouch(files, at, artifacts[..|artifacts| - 1]);
      NamesAreInDir(at.dir, artifacts[|artifacts| - 1].name);
    }
  }

  lemma {:induction false} StagingTouches(files: Files, at: Place, artifacts: seq<Artifact>)
    requires AreNames(artifacts)
    ensures OnlyTouches(at, files, WithStaged(files, at, artifacts))
  {
    if artifacts != [] {
      StagingTouches(files, at, artifacts[..|artifacts| - 1]);
      StagePath(at, artifacts[|artifacts| - 1].name);
    }
  }

  lemma {:induction false} SigsTouch(files: Files, at: Place, artifacts: seq<Artifact>)
    requires AreNames(artifacts)
    ensures OnlyTouches(at, files, WithSigs(files, at, artifacts))
  {
    if artifacts != [] {
      var last := artifacts[|artifacts| - 1].name;
      SigsTouch(files, at, artifacts[..|artifacts| - 1]);
      SigPath(at.dir, last);
      NamesAreInDir(at.dir, SigOf(last));
    }
  }

  lemma {:induction false} CompanionsTouch(files: Files, at: Place, changes: seq<Change>)
    ensures OnlyTouches(at, files, WithCompanions(files, at, changes))
  {
    if changes != [] {
      CompanionsTouch(files, at, changes[..|changes| - 1]);
      if IsName(changes[|changes| - 1].name) {
        NamesAreInDir(at.dir, changes[|changes| - 1].name);
      }
    }
  }

  lemma DatabaseTouches(files: Files, at: Place, entries: map<string, string>)
    requires GoodDb(at)
    ensures OnlyTouches(at, files, WithDatabase(files, at, entries))
  {
    var db := at.db;
    SigPath(at.dir, db);
    NamesAreInDir(at.dir, db);
    NamesAreInDir(at.dir, SigOf(db));
  }

  lemma PublishTouches(files: Files, at: Place, artifacts: seq<Artifact>, changes: seq<Change>)
    requires GoodDb(at) && GoodNames(at, artifacts)
    ensures OnlyTouches(at, files, Published(files, at, artifacts, changes))
    ensures forall path | Under(at.stage, path) :: path !in Published(files, at, artifacts, changes)
  {
    var copied := WithCopies(files, at, artifacts);
    var staged := WithStaged(copied, at, artifacts);
    var entries := Added(EntriesOf(FileAt(staged, at, at.db)), artifacts, StagedContents(staged, at, artifacts));
    CopiesTouch(files, at, artifacts);
    StagingTouches(copied, at, artifacts);
    var ran := WithCompanions(staged, at, changes);
    CompanionsTouch(staged, at, changes);
    DatabaseTouches(ran, at, entries);
    SigsTouch(WithDatabase(ran, at, entries), at, artifacts);
  }

  /** Two places of one repository. */
  predicate Apart(at: Place, other: Place) {
    Front(at.dir) != Front(other.dir) && at.stage == other.stage
  }

  /** A call that only touches one place leaves every file of another outside the staging directory alone. */
  lemma OthersKept(a: Files, b: Files, at: Place, other: Place, name: string)
    requires OnlyTouches(at, a, b) && Apart(at, other) && IsName(name) && !other.InStage()
    ensures FileAt(b, other, name) == FileAt(a, other, name)
  {
    OutsideStage(other, name);
    if InDir(at.dir, other.PathOf(name)) {
      OneDirectory(at.dir, other.dir, other.PathOf(name));
    }
  }

  /** Whether a variant has files at all. */
  ghost predicate HasFiles(files: Files, at: Place) {
    exists name :: IsName(name) && FileAt(files, at, name).Some?
  }

  lemma OthersAfterPublish(files: Files, at: Place, other: Place, artifacts: seq<Artifact>, changes: seq<Change>)
    requires GoodDb(at) && GoodNames(at, artifacts) && Apart(at, other)
    ensures forall name | IsName(name) ::
              FileAt(Published(files, at, artifacts, changes), other, name) == if other.InStage() then None else FileAt(files, other, name)
  {
    PublishTouches(files, at, artifacts, changes);
    var b := Published(files, at, artifacts, changes);
    forall name | IsName(name)
      ensures FileAt(b, other, name) == if other.InStage() then None else FileAt(files, other, name)
    {
      OutsideStage(other, name);
      if !other.InStage() {
        OthersKept(files, b, at, other, name);
      }
    }
  }

  /**
   For any architecture string: publishing one variant leaves all files of another one as they
   were exactly when that variant's directory is not the staging directory or below it, or has no
   files; otherwise the clean-up of the staging directory deletes them.
   */
  lemma IsolatedIff(files: Files, ctx: RepoCtx, v: Variant, w: Variant, artifacts: seq<Artifact>, changes: seq<Change>)
    requires Lacks(ctx.repoName, '/') && GoodNames(ctx.PlaceOf(v), artifacts) && v != w
    ensures var after, other := Published(files, ctx.PlaceOf(v), artifacts, changes), ctx.PlaceOf(w);
            (forall name | IsName(name) :: FileAt(after, other, name) == FileAt(files, other, name))
            <==> !other.InStage() || !HasFiles(files, other)
  {
    DbIsName(ctx, v);
    DirsDiffer(ctx, v, w);
    OthersAfterPublish(files, ctx.PlaceOf(v), ctx.PlaceOf(w), artifacts, changes);
  }

  /** The failing case exists: an architecture called ".stage", with the default variant in use. */
  lemma PublishDeletesDefault(files: Files, ctx: RepoCtx, artifacts: seq<Artifact>, changes: seq<Change>)
    requires ctx == RepoCtx("/srv/repo", ".stage", "paur")
    requires GoodNames(ctx.PlaceOf(V3), artifacts) && HasFiles(files, ctx.PlaceOf(Default))
    ensures !ctx.PlaceOf(V3).InStage() && !HasFiles(Published(files, ctx.PlaceOf(V3), artifacts, changes), ctx.PlaceOf(Default))
  {
    InStageIff(ctx, Default);
    InStageIff(ctx, V3);
    DbIsName(ctx, V3);
    DirsDiffer(ctx, V3, Default);
    OthersAfterPublish(files, ctx.PlaceOf(V3), ctx.PlaceOf(Default), artifacts, changes);
  }

  // -------- consistency over runs --------

  /** Every entry of the database names a file that is there, with a signature of what it holds now. */
  ghost predicate Consistent(files: Files, at: Place) {
    var entries := EntriesOf(FileAt(files, at, at.db));
    forall package | package in entries :: GoodName(at, entries[package]) && IsSigned(files, at, entries[package])
  }

  lemma {:induction false} AddedEntries(entries: map<string, string>, artifacts: seq<Artifact>, contents: map<string, Content>)
    ensures var after := Added(entries, artifacts, contents);
            && entries.Keys <= after.Keys
            && forall p | p in after ::
                 || (p in entries && after[p] == entries[p])
                 || (after[p] in contents && contents[after[p]].Archive? && contents[after[p]].package == p)
  {
    if artifacts != [] {
      AddedEntries(entries, artifacts[..|artifacts| - 1], contents);
    }
  }

  lemma PublishKeepsConsistent(a: Files, b: Files, at: Place, artifacts: seq<Artifact>)
    requires GoodDb(at) && GoodNames(at, artifacts)
    requires IsPublished(a, b, at, artifacts) && Consistent(a, at)
    ensures Consistent(b, at)
  {
    var db, copies := at.db, Copies(artifacts);
    var entries := EntriesOf(FileAt(a, at, db));
    var after := Added(entries, artifacts, copies);
    AddedEntries(entries, artifacts, copies);
    CopiedNames(at, artifacts);
    forall p | p in after
      ensures GoodName(at, after[p]) && IsSigned(b, at, after[p])
    {
      var name := after[p];
      if name !in copies {
        assert SigOf(name)[..|SigOf(name)| - 4] == name;
        SigEnds(name);
        SigPath(at.dir, name);
        GoodIsNoCompanion(at, name);
      }
    }
  }

  lemma RemoveKeepsConsistent(a: Files, b: Files, at: Place, package: string)
    requires GoodDb(at) && IsRemoved(a, b, at, package) && Consistent(a, at)
    ensures Consistent(b, at)
  {
    var db := at.db;
    var entries := EntriesOf(FileAt(a, at, db));
    forall p | p in entries - {package}
      ensures GoodName(at, entries[p]) && IsSigned(b, at, entries[p])
    {
      var name := entries[p];
      SigIsInjective(name, db);
      SigEnds(name);
      SigEnds(db);
      SigPath(at.dir, name);
      GoodIsNoCompanion(at, name);
    }
  }

  /** No copied artifact gives a file that the database lists another content. */
  ghost predicate KeepsListed(files: Files, at: Place, copied: seq<Artifact>) {
    var entries, copies := EntriesOf(FileAt(files, at, at.db)), Copies(copied);
    forall package | package in entries && entries[package] in copies ::
      FileAt(files, at, entries[package]) == Some(copies[entries[package]])
  }

  /** The first `n` artifacts copied, `m` of them staged, and nothing else done. */
  lemma EarlyStop(files: Files, at: Place, artifacts: seq<Artifact>, n: nat, m: nat)
    requires GoodDb(at) && GoodNames(at, artifacts) && n <= |artifacts| && m <= |artifacts|
    ensures !at.InStage() && Consistent(files, at) ==>
              (Consistent(WithStaged(WithCopies(files, at, artifacts[..n]), at, artifacts[..m]), at) <==>
               KeepsListed(files, at, artifacts[..n]))
  {
    if !at.InStage() && Consistent(files, at) {
      ListedAfter(files, at, artifacts[..n], artifacts[..m]);
    }
  }

  lemma ListedAfter(files: Files, at: Place, copied: seq<Artifact>, staged: seq<Artifact>)
    requires GoodDb(at) && GoodNames(at, copied) && GoodNames(at, staged) && !at.InStage() && Consistent(files, at)
    ensures Consistent(WithStaged(WithCopies(files, at, copied), at, staged), at) <==> KeepsListed(files, at, copied)
  {
    var b := WithStaged(WithCopies(files, at, copied), at, staged);
    var entries, copies := EntriesOf(FileAt(files, at, at.db)), Copies(copied);
    CopiedNames(at, copied);
    CopiedOnly(files, at, copied, staged, at.db);
    forall package | package in entries
      ensures IsSigned(b, at, entries[package]) <==>
                (entries[package] in copies ==> FileAt(files, at, entries[package]) == Some(copies[entries[package]]))
    {
      var name := entries[package];
      SigPath(at.dir, name);
      SigEnds(name);
      CopiedOnly(files, at, copied, staged, name);
      CopiedOnly(files, at, copied, staged, SigOf(name));
    }
  }

  lemma NothingStaged(files: Files, at: Place, artifacts: seq<Artifact>)
    ensures WithStaged(files, at, artifacts[..0]) == files
  {
  }

  lemma CopiedOnly(files: Files, at: Place, copied: seq<Artifact>, staged: seq<Artifact>, name: string)
    requires GoodNames(at, copied) && GoodNames(at, staged) && !at.InStage() && IsName(name)
    ensures FileAt(WithStaged(WithCopies(files, at, copied), at, staged), at, name) ==
              if name in Copies(copied) then Some(Copies(copied)[name]) else FileAt(files, at, name)
  {
    CopiesAt(files, at, copied, name);
    StagedAt(WithCopies(files, at, copied), at, at, staged, name);
  }

  /** What another variant has, it keeps. */
  lemma OthersStayConsistent(a: Files, b: Files, at: Place, other: Place)
    requires GoodDb(other) && OnlyTouches(at, a, b) && Apart(at, other) && !other.InStage()
    ensures Consistent(a, other) ==> Consistent(b, other)
    ensures IsSigned(a, other, other.db) ==> IsSigned(b, other, other.db)
  {
    forall name | IsName(name)
      ensures FileAt(b, other, name) == FileAt(a, other, name)
      ensures IsSigned(b, other, name) == IsSigned(a, other, name)
    {
      SigPath(other.dir, name);
      OthersKept(a, b, at, other, name);
      OthersKept(a, b, at, other, SigOf(name));
    }
  }

  // -------- the calls --------

  /**
   How the container's `repo-add` or `repo-remove` ends. Once the script has started it has removed
   the database's signature, and a failure may leave any database behind.
   */
  datatype ContainerResult = Succeeded | NotStarted | Broken(left: Option<map<string, string>>)

  /**
   What happens to a call: it is interrupted after so many copies, stagings and signatures, and the
   container's tool leaves such companions of the database behind.
   */
  datatype World = World(copies: nat, stagings: nat, container: ContainerResult, companions: seq<Change>, signatures: nat)

  datatype RepoError = NothingToPublish | CopyFailed | StageFailed | RepoOpFailed | SignFailed

  datatype Call =
    | Publish(variant: Variant, artifacts: seq<Artifact>, world: World)
    | Remove(variant: Variant, package: string, world: World)

  /** How many artifacts are copied. */
  function Copied(world: World, n: nat): (k: nat)
    ensures k <= n
  {
    if world.copies < n then world.copies else n
  }

  /** The call fails in signing, after the script in the container has succeeded. */
  predicate StopsLate(world: World, n: nat) {
    n > 0 && world.copies >= n && world.stagings >= n && world.container.Succeeded? && world.signatures <= n
  }

  /** The first thing that goes wrong. */
  function FailureOf(world: World, n: nat): RepoError {
    if world.copies < n then CopyFailed
    else if world.stagings < n then StageFailed
    else if !world.container.Succeeded? then RepoOpFailed
    else SignFailed
  }

  /** The call fails before the script in the container has started. */
  predicate StopsEarly(world: World, n: nat) {
    world.copies < n || world.stagings < n || world.container.NotStarted?
  }

  /** The database written, and the first signature that fails: of the database, or of an artifact. */
  function HalfSigned(f: Files, at: Place, artifacts: seq<Artifact>, signatures: nat): Files
    requires signatures <= |artifacts|
  {
    if signatures == 0 then f - {at.DbSig()}
    else WithSigs(f, at, artifacts[..signatures - 1]) - {SigOf(at.PathOf(artifacts[signatures - 1].name))}
  }

  /** An artifact whose signature fits although signing stopped with number `signatures`. */
  predicate SignedLate(files: Files, at: Place, artifacts: seq<Artifact>, signatures: nat, name: string)
    requires signatures <= |artifacts| && name in Copies(artifacts)
  {
    if signatures == 0 then FileAt(files, at, SigOf(name)) == Some(Signature(Copies(artifacts)[name]))
    else
      && name != artifacts[signatures - 1].name
      && (name in Copies(artifacts[..signatures - 1])
          || FileAt(files, at, SigOf(name)) == Some(Signature(Copies(artifacts)[name])))
  }

  /** What the database lists after a publish. */
  function NewEntries(files: Files, at: Place, artifacts: seq<Artifact>): map<string, string> {
    Added(EntriesOf(FileAt(files, at, at.db)), artifacts, Copies(artifacts))
  }

  /** All artifacts among the entries have a fitting signature. */
  ghost predicate ListedSigned(files: Files, at: Place, artifacts: seq<Artifact>, signatures: nat, entries: map<string, string>)
    requires signatures <= |artifacts|
  {
    forall package | package in entries && entries[package] in Copies(artifacts) ::
      SignedLate(files, at, artifacts, signatures, entries[package])
  }

  /** All artifacts that the new database lists have one. */
  ghost predicate KeepsSigned(files: Files, at: Place, artifacts: seq<Artifact>, signatures: nat)
    requires signatures <= |artifacts|
  {
    ListedSigned(files, at, artifacts, signatures, NewEntries(files, at, artifacts))
  }

  /** The files when the container has succeeded. */
  function AfterScript(files: Files, at: Place, artifacts: seq<Artifact>, changes: seq<Change>, entries: map<string, string>): Files {
    WithDatabase(WithCompanions(WithStaged(WithCopies(files, at, artifacts), at, artifacts), at, changes), at, entries)
  }

  lemma SigAfterScript(files: Files, at: Place, artifacts: seq<Artifact>, changes: seq<Change>, entries: map<string, string>, name: string)
    requires GoodDb(at) && GoodNames(at, artifacts) && !at.InStage() && GoodName(at, name)
    ensures var f := AfterScript(files, at, artifacts, changes, entries);
            && FileAt(f, at, name) == (if name in Copies(artifacts) then Some(Copies(artifacts)[name]) else FileAt(files, at, name))
            && FileAt(f, at, SigOf(name)) == FileAt(files, at, SigOf(name))
            && IsName(SigOf(name))
  {
    GoodIsNoCompanion(at, name);
    SigPath(at.dir, name);
    SigEnds(name);
    SigEnds(at.db);
    SigIsInjective(name, at.db);
    CopiedNames(at, artifacts);
    RanAt(files, at, artifacts, changes, entries, name);
    RanAt(files, at, artifacts, changes, entries, SigOf(name));
  }

  /** Signed up to the artifact `last`, whose old signature is gone. */
  lemma CutAt(f: Files, at: Place, front: seq<Artifact>, last: string, name: string)
    requires GoodNames(at, front) && GoodName(at, last) && IsName(name) && !EndsWithSig(name)
    requires forall n | n in Copies(front) :: FileAt(f, at, n).Some?
    ensures var b := WithSigs(f, at, front) - {SigOf(at.PathOf(last))};
            && FileAt(b, at, name) == FileAt(f, at, name)
            && FileAt(b, at, SigOf(name)) ==
                 if name == last then None
                 else if name in Copies(front) then Some(Signature(FileAt(f, at, name).value))
                 else FileAt(f, at, SigOf(name))
  {
    SigsAt(f, at, front, name);
    SigPath(at.dir, last);
    SigPath(at.dir, name);
    SigIsInjective(name, last);
    SigEnds(last);
    WriteAt(WithSigs(f, at, front), at, SigOf(last), Truncated, name);
    WriteAt(WithSigs(f, at, front), at, SigOf(last), Truncated, SigOf(name));
  }

  lemma DbSigGone(f: Files, at: Place, name: string)
    requires GoodDb(at) && IsName(name) && !EndsWithSig(name)
    ensures var b := f - {at.DbSig()};
            && FileAt(b, at, name) == FileAt(f, at, name)
            && (name != at.db ==> FileAt(b, at, SigOf(name)) == FileAt(f, at, SigOf(name)))
  {
    SigPath(at.dir, at.db);
    SigPath(at.dir, name);
    SigIsInjective(name, at.db);
    SigEnds(at.db);
    WriteAt(f, at, SigOf(at.db), Truncated, name);
    WriteAt(f, at, SigOf(at.db), Truncated, SigOf(name));
  }

  /** The artifacts before the one whose signature fails are all there. */
  lemma FrontThere(files: Files, at: Place, artifacts: seq<Artifact>, changes: seq<Change>, entries: map<string, string>, n: nat)
    requires GoodDb(at) && GoodNames(at, artifacts) && !at.InStage() && n <= |artifacts|
    ensures var f := AfterScript(files, at, artifacts, changes, entries);
            && Copies(artifacts[..n]).Keys <= Copies(artifacts).Keys
            && forall x | x in Copies(artifacts[..n]) :: FileAt(f, at, x) == Some(Copies(artifacts)[x])
  {
    CopiedNames(at, artifacts);
    FrontCopies(at, artifacts, n);
    forall x | x in Copies(artifacts[..n])
      ensures FileAt(AfterScript(files, at, artifacts, changes, entries), at, x) == Some(Copies(artifacts)[x])
    {
      SigAfterScript(files, at, artifacts, changes, entries, x);
    }
  }

  /** What became of a file, and of its signature. */
  ghost predicate HalfSignedIs(files: Files, b: Files, at: Place, artifacts: seq<Artifact>, signatures: nat, name: string)
    requires signatures <= |artifacts|
  {
    if name in Copies(artifacts)
    then FileAt(b, at, name) == Some(Copies(artifacts)[name])
         && (IsSigned(b, at, name) <==> SignedLate(files, at, artifacts, signatures, name))
    else FileAt(b, at, name) == FileAt(files, at, name) && (IsSigned(files, at, name) ==> IsSigned(b, at, name))
  }

  lemma NoneSignedAt(files: Files, at: Place, artifacts: seq<Artifact>, changes: seq<Change>, entries: map<string, string>, name: string)
    requires GoodDb(at) && GoodNames(at, artifacts) && !at.InStage() && GoodName(at, name)
    ensures var f := AfterScript(files, at, artifacts, changes, entries);
            HalfSignedIs(files, HalfSigned(f, at, artifacts, 0), at, artifacts, 0, name)
  {
    SigAfterScript(files, at, artifacts, changes, entries, name);
    DbSigGone(AfterScript(files, at, artifacts, changes, entries), at, name);
  }

  lemma HalfSignedAt(files: Files, at: Place, artifacts: seq<Artifact>, changes: seq<Change>, entries: map<string, string>,
                     signatures: nat, name: string)
    requires GoodDb(at) && GoodNames(at, artifacts) && !at.InStage() && 0 < signatures <= |artifacts| && GoodName(at, name)
    ensures var f := AfterScript(files, at, artifacts, changes, entries);
            HalfSignedIs(files, HalfSigned(f, at, artifacts, signatures), at, artifacts, signatures, name)
  {
    SigAfterScript(files, at, artifacts, changes, entries, name);
    CopiedNames(at, artifacts);
    FrontThere(files, at, artifacts, changes, entries, signatures - 1);
    CutAt(AfterScript(files, at, artifacts, changes, entries), at, artifacts[..signatures - 1], artifacts[signatures - 1].name, name);
  }

  lemma {:induction false} FrontCopies(at: Place, artifacts: seq<Artifact>, n: nat)
    requires n <= |artifacts|
    ensures Copies(artifacts[..n]).Keys <= Copies(artifacts).Keys
    decreases |artifacts|
  {
    if n == |artifacts| {
      assert artifacts[..n] == artifacts;
    } else {
      var front := artifacts[..|artifacts| - 1];
      FrontCopies(at, front, n);
      assert front[..n] == artifacts[..n];
    }
  }

  lemma DbHalfSigned(files: Files, at: Place, artifacts: seq<Artifact>, changes: seq<Change>, entries: map<string, string>, signatures: nat)
    requires GoodDb(at) && GoodNames(at, artifacts) && !at.InStage() && signatures <= |artifacts|
    ensures FileAt(HalfSigned(AfterScript(files, at, artifacts, changes, entries), at, artifacts, signatures), at, at.db) ==
              Some(Database(entries))
  {
    var f := AfterScript(files, at, artifacts, changes, entries);
    RanAt(files, at, artifacts, changes, entries, at.db);
    if signatures == 0 {
      DbSigGone(f, at, at.db);
    } else {
      FrontThere(files, at, artifacts, changes, entries, signatures - 1);
      CutAt(f, at, artifacts[..signatures - 1], artifacts[signatures - 1].name, at.db);
    }
  }

  /** Signing stopped: what a consistent variant needs to stay so. */
  lemma LateStop(files: Files, at: Place, artifacts: seq<Artifact>, world: World, entries: map<string, string>)
    requires GoodDb(at) && GoodNames(at, artifacts)
    requires var staged := WithStaged(WithCopies(files, at, artifacts), at, artifacts);
             entries == Added(EntriesOf(FileAt(staged, at, at.db)), artifacts, StagedContents(staged, at, artifacts))
    ensures world.signatures <= |artifacts| && !at.InStage() && Consistent(files, at) ==>
              (Consistent(HalfSigned(AfterScript(files, at, artifacts, world.companions, entries), at, artifacts, world.signatures), at) <==>
               KeepsSigned(files, at, artifacts, world.signatures))
  {
    if world.signatures <= |artifacts| && !at.InStage() && Consistent(files, at) {
      BeforeSigning(files, at, artifacts, at.db);
      CopiedNames(at, artifacts);
      StagedContentsAre(files, at, artifacts);
      ListedLate(files, at, artifacts, world.companions, world.signatures);
    }
  }

  lemma ListedLate(files: Files, at: Place, artifacts: seq<Artifact>, changes: seq<Change>, signatures: nat)
    requires GoodDb(at) && GoodNames(at, artifacts) && !at.InStage() && signatures <= |artifacts| && Consistent(files, at)
    ensures var entries := NewEntries(files, at, artifacts);
            Consistent(HalfSigned(AfterScript(files, at, artifacts, changes, entries), at, artifacts, signatures), at) <==>
            KeepsSigned(files, at, artifacts, signatures)
  {
    var entries := NewEntries(files, at, artifacts);
    EntriesAreGood(files, at, artifacts);
    DbHalfSigned(files, at, artifacts, changes, entries, signatures);
    AllJudged(files, at, artifacts, changes, signatures, entries);
    JudgedByEntries(files, HalfSigned(AfterScript(files, at, artifacts, changes, entries), at, artifacts, signatures),
                    at, artifacts, signatures, entries);
  }

  /** The file has its signature in `b` if it is not an artifact, or is one whose signature fits. */
  ghost predicate SameJudgement(files: Files, b: Files, at: Place, artifacts: seq<Artifact>, signatures: nat, name: string)
    requires signatures <= |artifacts|
  {
    IsSigned(b, at, name) <==> (name in Copies(artifacts) ==> SignedLate(files, at, artifacts, signatures, name))
  }

  ghost predicate Judged(files: Files, b: Files, at: Place, artifacts: seq<Artifact>, signatures: nat, entries: map<string, string>)
    requires signatures <= |artifacts|
  {
    forall package | package in entries :: SameJudgement(files, b, at, artifacts, signatures, entries[package])
  }

  lemma AllJudged(files: Files, at: Place, artifacts: seq<Artifact>, changes: seq<Change>, signatures: nat, entries: map<string, string>)
    requires GoodDb(at) && GoodNames(at, artifacts) && !at.InStage() && signatures <= |artifacts|
    requires GoodEntries(files, at, artifacts, entries)
    ensures Judged(files, HalfSigned(AfterScript(files, at, artifacts, changes, entries), at, artifacts, signatures),
                   at, artifacts, signatures, entries)
  {
    var b := HalfSigned(AfterScript(files, at, artifacts, changes, entries), at, artifacts, signatures);
    forall package | package in entries
      ensures SameJudgement(files, b, at, artifacts, signatures, entries[package])
    {
      if signatures == 0 {
        NoneSignedAt(files, at, artifacts, changes, entries, entries[package]);
      } else {
        HalfSignedAt(files, at, artifacts, changes, entries, signatures, entries[package]);
      }
    }
  }

  lemma JudgedByEntries(files: Files, b: Files, at: Place, artifacts: seq<Artifact>, signatures: nat, entries: map<string, string>)
    requires signatures <= |artifacts| && FileAt(b, at, at.db) == Some(Database(entries))
    requires GoodEntries(files, at, artifacts, entries) && Judged(files, b, at, artifacts, signatures, entries)
    ensures Consistent(b, at) <==> ListedSigned(files, at, artifacts, signatures, entries)
  {
    forall package | package in entries
      ensures IsSigned(b, at, entries[package]) <==>
                (entries[package] in Copies(artifacts) ==> SignedLate(files, at, artifacts, signatures, entries[package]))
    {
      assert SameJudgement(files, b, at, artifacts, signatures, entries[package]);
    }
    assert EntriesOf(FileAt(b, at, at.db)) == entries;
  }

  /** Every entry has a name that files may have, and its signature if it is not among the artifacts. */
  ghost predicate GoodEntries(files: Files, at: Place, artifacts: seq<Artifact>, entries: map<string, string>) {
    forall package | package in entries ::
      GoodName(at, entries[package]) && (entries[package] in Copies(artifacts) || IsSigned(files, at, entries[package]))
  }

  lemma EntriesAreGood(files: Files, at: Place, artifacts: seq<Artifact>)
    requires GoodNames(at, artifacts) && Consistent(files, at)
    ensures GoodEntries(files, at, artifacts, NewEntries(files, at, artifacts))
  {
    AddedEntries(EntriesOf(FileAt(files, at, at.db)), artifacts, Copies(artifacts));
    CopiedNames(at, artifacts);
  }

  class Disk {
    var files: Files

    constructor ()
      ensures files == map[]
    {
      files := map[];
    }

    /** Removes any old signature and, unless gpg fails, writes one of the present content. */
    method Sign(path: string, refused: bool) returns (ok: bool)
      modifies this
      ensures ok <==> path in old(files) && !refused
      ensures ok ==> files == old(files)[SigOf(path) := Signature(old(files)[path])]
      ensures !ok ==> files == old(files) - {SigOf(path)}
    {
      assert SigOf(path) != path by { assert |SigOf(path)| > |path|; }
      files := files - {SigOf(path)};
      if refused || path !in files {
        return false;
      }
      files := files[SigOf(path) := Signature(files[path])];
      return true;
    }

    method CopyAll(at: Place, artifacts: seq<Artifact>, limit: nat) returns (ok: bool)
      requires AreNames(artifacts)
      modifies this
      ensures ok <==> |artifacts| <= limit
      ensures files == WithCopies(old(files), at, artifacts[..if ok then |artifacts| else limit])
      ensures OnlyTouches(at, old(files), files)
    {
      for i := 0 to |artifacts|
        invariant i <= limit
        invariant files == WithCopies(old(files), at, artifacts[..i])
      {
        if i >= limit {
          CopiesTouch(old(files), at, artifacts[..i]);
          assert i == limit;
          return false;
        }
        assert artifacts[..i + 1][..i] == artifacts[..i];
        files := files[at.PathOf(artifacts[i].name) := artifacts[i].content];
      }
      assert artifacts[..|artifacts|] == artifacts;
      CopiesTouch(old(files), at, artifacts);
      return true;
    }

    method StageAll(at: Place, artifacts: seq<Artifact>, limit: nat) returns (ok: bool)
      requires AreNames(artifacts)
      modifies this
      ensures ok <==> |artifacts| <= limit
      ensures files == WithStaged(old(files), at, artifacts[..if ok then |artifacts| else limit])
      ensures OnlyTouches(at, old(files), files)
    {
      for i := 0 to |artifacts|
        invariant i <= limit
        invariant files == WithStaged(old(files), at, artifacts[..i])
      {
        if i >= limit {
          StagingTouches(old(files), at, artifacts[..i]);
          return false;
        }
        assert artifacts[..i + 1][..i] == artifacts[..i];
        var from, to := at.PathOf(artifacts[i].name), Join(at.stage, artifacts[i].name);
        if from in files {
          files := files[to := if from == to then Truncated else files[from]];
        }
      }
      assert artifacts[..|artifacts|] == artifacts;
      StagingTouches(old(files), at, artifacts);
      return true;
    }

    /** The script in the container: drops the signature, then runs `repo-add` or `repo-remove`. */
    method RunContainer(at: Place, result: ContainerResult, changes: seq<Change>, entries: map<string, string>) returns (ok: bool)
      requires GoodDb(at)
      modifies this
      ensures ok <==> result.Succeeded?
      ensures ok ==> files == (WithCompanions(old(files), at, changes) - {at.DbSig()})[at.DbPath() := Database(entries)]
      ensures !ok ==> files == old(files) || at.DbSig() !in files
      ensures result.NotStarted? ==> files == old(files)
      ensures result.Broken? ==>
                var without := WithCompanions(old(files), at, changes) - {at.DbSig()};
                files == if result.left.Some? then without[at.DbPath() := Database(result.left.value)] else without
      ensures OnlyTouches(at, old(files), files)
    {
      var db := at.db;
      SigPath(at.dir, db);
      SigEnds(db);
      NamesAreInDir(at.dir, db);
      NamesAreInDir(at.dir, SigOf(db));
      JoinIsInjective(at.dir, db, SigOf(db));
      if result.NotStarted? {
        return false;
      }
      CompanionsTouch(files, at, changes);
      files := WithCompanions(files, at, changes) - {at.DbSig()};
      if result.Succeeded? {
        files := files[at.DbPath() := Database(entries)];
      } else if result.left.Some? {
        files := files[at.DbPath() := Database(result.left.value)];
      }
      return result.Succeeded?;
    }

    method SignAll(at: Place, artifacts: seq<Artifact>, limit: nat) returns (ok: bool)
      requires AreNames(artifacts)
      requires forall i | 0 <= i < |artifacts| :: at.PathOf(artifacts[i].name) in files
      modifies this
      ensures ok <==> |artifacts| <= limit
      ensures ok ==> files == WithSigs(old(files), at, artifacts)
      ensures !ok ==> files == WithSigs(old(files), at, artifacts[..limit]) - {SigOf(at.PathOf(artifacts[limit].name))}
      ensures OnlyTouches(at, old(files), files)
    {
      for i := 0 to |artifacts|
        invariant i <= limit
        invariant files == WithSigs(old(files), at, artifacts[..i])
        invariant old(files.Keys) <= files.Keys
      {
        var path := at.PathOf(artifacts[i].name);
        SigsTouch(old(files), at, artifacts[..i]);
        SigPath(at.dir, artifacts[i].name);
        NamesAreInDir(at.dir, SigOf(artifacts[i].name));
        var signed := Sign(path, i >= limit);
        if !signed {
          return false;
        }
        assert artifacts[..i + 1][..i] == artifacts[..i];
      }
      assert artifacts[..|artifacts|] == artifacts;
      SigsTouch(old(files), at, artifacts);
      return true;
    }

    /** The container's run and the signature of the database it leaves. */
    method WriteDatabase(at: Place, entries: map<string, string>, world: World) returns (failure: Option<RepoError>)
      requires GoodDb(at)
      modifies this
      ensures failure.None? <==> world.container.Succeeded? && world.signatures > 0
      ensures failure.Some? ==> failure.value == if world.container.Succeeded? then SignFailed else RepoOpFailed
      ensures failure.None? ==> files == WithDatabase(WithCompanions(old(files), at, world.companions), at, entries)
      ensures failure.Some? ==> files == old(files) || at.DbSig() !in files
      ensures world.container.NotStarted? ==> files == old(files)
      ensures world.container.Succeeded? && world.signatures == 0 ==>
                files == WithDatabase(WithCompanions(old(files), at, world.companions), at, entries) - {at.DbSig()}
      ensures OnlyTouches(at, old(files), files)
    {
      DbPaths(at);
      CompanionsTouch(files, at, world.companions);
      DatabaseTouches(WithCompanions(files, at, world.companions), at, entries);
      var ran := RunContainer(at, world.container, world.companions, entries);
      if !ran {
        return Some(RepoOpFailed);
      }
      var signed := Sign(at.DbPath(), world.signatures == 0);
      if !signed {
        assert files == WithDatabase(WithCompanions(old(files), at, world.companions), at, entries) - {at.DbSig()};
        return Some(SignFailed);
      }
      assert files == WithDatabase(WithCompanions(old(files), at, world.companions), at, entries);
      return None;
    }

    /**
     Publishes the artifacts of a build into the repository of one variant. It succeeds exactly
     when nothing interrupts it, and then does all that `IsPublished` says. When it ends before
     the container has started, a consistent variant stays so exactly when no copy has changed
     what a listed file holds: its old signature is still there. When a signature fails after the
     script, it stays so exactly when each listed artifact was signed before that, or its old
     signature happens to fit and was not the one removed.
     */
    method PublishWith(ctx: RepoCtx, v: Variant, artifacts: seq<Artifact>, world: World) returns (r: Result<string, RepoError>)
      requires Lacks(ctx.repoName, '/') && GoodNames(ctx.PlaceOf(v), artifacts)
      modifies this
      ensures r.Ok? <==> artifacts != [] && |artifacts| <= world.copies && |artifacts| <= world.stagings
                         && world.container.Succeeded? && |artifacts| < world.signatures
      ensures r.Err? ==> r.error == if artifacts == [] then NothingToPublish else FailureOf(world, |artifacts|)
      ensures artifacts == [] ==> files == old(files)
      ensures r.Err? <==> artifacts == [] || StopsEarly(world, |artifacts|) || StopsLate(world, |artifacts|) || world.container.Broken?
      ensures r.Ok? ==> r.value == ctx.DbSigFor(v) && files == Published(old(files), ctx.PlaceOf(v), artifacts, world.companions)
      ensures r.Ok? && !ctx.PlaceOf(v).InStage() ==> IsPublished(old(files), files, ctx.PlaceOf(v), artifacts)
      ensures StopsEarly(world, |artifacts|) && !ctx.PlaceOf(v).InStage() && Consistent(old(files), ctx.PlaceOf(v)) ==>
                (Consistent(files, ctx.PlaceOf(v)) <==>
                 KeepsListed(old(files), ctx.PlaceOf(v), artifacts[..Copied(world, |artifacts|)]))
      ensures StopsLate(world, |artifacts|) && !ctx.PlaceOf(v).InStage() && Consistent(old(files), ctx.PlaceOf(v)) ==>
                (Consistent(files, ctx.PlaceOf(v)) <==> KeepsSigned(old(files), ctx.PlaceOf(v), artifacts, world.signatures))
      ensures OnlyTouches(ctx.PlaceOf(v), old(files), files)
    {
      if artifacts == [] {
        return Err(NothingToPublish);
      }
      var at := ctx.PlaceOf(v);
      DbIsName(ctx, v);
      var failure := PublishAt(at, artifacts, world);
      if failure.Some? {
        return Err(failure.value);
      }
      if !at.InStage() {
        PublishedSpec(old(files), at, artifacts, world.companions);
      }
      return Ok(ctx.DbSigFor(v));
    }

    method PublishAt(at: Place, artifacts: seq<Artifact>, world: World) returns (failure: Option<RepoError>)
      requires GoodDb(at) && GoodNames(at, artifacts)
      modifies this
      ensures failure.None? <==> |artifacts| <= world.copies && |artifacts| <= world.stagings
                                 && world.container.Succeeded? && |artifacts| < world.signatures
      ensures failure.Some? ==> failure.value == FailureOf(world, |artifacts|)
      ensures failure.None? ==> files == Published(old(files), at, artifacts, world.companions)
      ensures OnlyTouches(at, old(files), files)
      ensures StopsEarly(world, |artifacts|) && !at.InStage() && Consistent(old(files), at) ==>
                (Consistent(files, at) <==> KeepsListed(old(files), at, artifacts[..Copied(world, |artifacts|)]))
      ensures StopsLate(world, |artifacts|) && !at.InStage() && Consistent(old(files), at) ==>
                (Consistent(files, at) <==> KeepsSigned(old(files), at, artifacts, world.signatures))
    {
      failure := Prepare(at, artifacts, world);
      if failure.Some? {
        return failure;
      }
      ghost var entries := Added(EntriesOf(FileAt(files, at, at.db)), artifacts, StagedContents(files, at, artifacts));
      LateStop(old(files), at, artifacts, world, entries);
      failure := Register(at, artifacts, world);
    }

    /** The database and the signatures, once everything is copied and staged. */
    method Register(at: Place, artifacts: seq<Artifact>, world: World) returns (failure: Option<RepoError>)
      requires GoodDb(at) && GoodNames(at, artifacts)
      requires forall i | 0 <= i < |artifacts| :: at.PathOf(artifacts[i].name) in files
      modifies this
      ensures failure.None? <==> world.container.Succeeded? && |artifacts| < world.signatures
      ensures failure.Some? ==> failure.value == if world.container.Succeeded? then SignFailed else RepoOpFailed
      ensures world.container.NotStarted? ==> files == old(files)
      ensures world.container.Succeeded? ==>
                var entries := Added(EntriesOf(FileAt(old(files), at, at.db)), artifacts, StagedContents(old(files), at, artifacts));
                var written := WithDatabase(WithCompanions(old(files), at, world.companions), at, entries);
                files == if failure.None? then WithoutStage(WithSigs(written, at, artifacts), at)
                         else HalfSigned(written, at, artifacts, world.signatures)
      ensures OnlyTouches(at, old(files), files)
    {
      var entries := Added(EntriesOf(FileAt(files, at, at.db)), artifacts, StagedContents(files, at, artifacts));
      StillThere(files, at, artifacts, world.companions, entries);
      ghost var written := WithDatabase(WithCompanions(files, at, world.companions), at, entries);
      failure := WriteDatabase(at, entries, world);
      if failure.Some? {
        return failure;
      }
      assert files == written;
      var all := SignAll(at, artifacts, world.signatures - 1);
      if !all {
        assert files == HalfSigned(written, at, artifacts, world.signatures);
        return Some(SignFailed);
      }
      files := WithoutStage(files, at);
      return None;
    }

    /** The copies into the repository and into the staging directory. */
    method Prepare(at: Place, artifacts: seq<Artifact>, world: World) returns (failure: Option<RepoError>)
      requires GoodDb(at) && GoodNames(at, artifacts)
      modifies this
      ensures failure.None? <==> |artifacts| <= world.copies && |artifacts| <= world.stagings
      ensures failure.Some? ==> failure.value == if world.copies < |artifacts| then CopyFailed else StageFailed
      ensures failure.None? ==>
                && files == WithStaged(WithCopies(old(files), at, artifacts), at, artifacts)
                && forall i | 0 <= i < |artifacts| :: at.PathOf(artifacts[i].name) in files
      ensures OnlyTouches(at, old(files), files)
      ensures !at.InStage() && Consistent(old(files), at) ==>
                (Consistent(files, at) <==> KeepsListed(old(files), at, artifacts[..Copied(world, |artifacts|)]))
    {
      var copied := CopyAll(at, artifacts, world.copies);
      if !copied {
        NothingStaged(files, at, artifacts);
        EarlyStop(old(files), at, artifacts, world.copies, 0);
        return Some(CopyFailed);
      }
      assert artifacts[..|artifacts|] == artifacts;
      CopiedPresent(old(files), at, artifacts);
      var staged := StageAll(at, artifacts, world.stagings);
      EarlyStop(old(files), at, artifacts, |artifacts|, if staged then |artifacts| else world.stagings);
      if !staged {
        return Some(StageFailed);
      }
      return None;
    }

    /**
     Drops a package from the database of one variant. Afterwards the database's signature is
     fresh exactly when the call succeeded or changed nothing: a failing script has already
     dropped the signature.
     */
    method RemoveWith(ctx: RepoCtx, v: Variant, package: string, world: World) returns (r: Result<(), RepoError>)
      requires Lacks(ctx.repoName, '/')
      modifies this
      ensures r.Ok? <==> world.container.Succeeded? && ctx.DbPathFor(v) in old(files) && world.signatures > 0
      ensures r.Err? ==>
                r.error == if world.container.Succeeded? && ctx.DbPathFor(v) in old(files) then SignFailed else RepoOpFailed
      ensures r.Ok? ==> IsRemoved(old(files), files, ctx.PlaceOf(v), package)
      ensures IsSigned(files, ctx.PlaceOf(v), ctx.DbBasenameFor(v)) <==>
                r.Ok? || (files == old(files) && IsSigned(old(files), ctx.PlaceOf(v), ctx.DbBasenameFor(v)))
      ensures OnlyTouches(ctx.PlaceOf(v), old(files), files)
    {
      DbIsName(ctx, v);
      var failure := RemoveAt(ctx.PlaceOf(v), package, world);
      return if failure.Some? then Err(failure.value) else Ok(());
    }

    method RemoveAt(at: Place, package: string, world: World) returns (failure: Option<RepoError>)
      requires GoodDb(at)
      modifies this
      ensures failure.None? <==> world.container.Succeeded? && at.DbPath() in old(files) && world.signatures > 0
      ensures failure.Some? ==>
                failure.value == if world.container.Succeeded? && at.DbPath() in old(files) then SignFailed else RepoOpFailed
      ensures failure.None? ==> IsRemoved(old(files), files, at, package)
      ensures IsSigned(files, at, at.db) <==> failure.None? || (files == old(files) && IsSigned(old(files), at, at.db))
      ensures OnlyTouches(at, old(files), files)
    {
      DbPaths(at);
      RemovedSpec(files, at, package, world.companions);
      var result := if world.container.Succeeded? && at.DbPath() !in files then Broken(None) else world.container;
      var entries := EntriesOf(FileAt(files, at, at.db)) - {package};
      failure := WriteDatabase(at, entries, world.(container := result));
    }

    /**
     Any sequence of publishes and removals on the three variants, successful or not. A variant
     outside the staging directory whose own calls all succeed stays consistent whatever happens
     to the others, and once it was published or removed from, its database is signed.
     */
    method Serve(ctx: RepoCtx, calls: seq<Call>) returns (results: seq<bool>)
      requires Lacks(ctx.repoName, '/')
      requires forall k | 0 <= k < |calls| && calls[k].Publish? :: GoodNames(ctx.PlaceOf(calls[k].variant), calls[k].artifacts)
      modifies this
      ensures |results| == |calls|
      ensures forall v: Variant | Serves(calls, results, v, old(files), ctx.PlaceOf(v)) :: Holds(calls, v, files, ctx.PlaceOf(v))
    {
      results := [];
      for k := 0 to |calls|
        invariant |results| == k
        invariant forall v: Variant | Serves(calls[..k], results, v, old(files), ctx.PlaceOf(v)) ::
                    Holds(calls[..k], v, files, ctx.PlaceOf(v))
      {
        ghost var before, earlier := files, results;
        var call := calls[k];
        assert calls[..k + 1] == calls[..k] + [call];
        var ok := Execute(ctx, call);
        results := results + [ok];
        forall v: Variant | Serves(calls[..k + 1], results, v, old(files), ctx.PlaceOf(v))
          ensures Holds(calls[..k + 1], v, files, ctx.PlaceOf(v))
        {
          OneMoreCall(calls[..k], earlier, call, ok, v, old(files), files, ctx.PlaceOf(v));
          assert Serves(calls[..k], earlier, v, old(files), ctx.PlaceOf(v));
          if v != call.variant {
            DirsDiffer(ctx, call.variant, v);
            DbIsName(ctx, v);
            OthersStayConsistent(before, files, ctx.PlaceOf(call.variant), ctx.PlaceOf(v));
          }
        }
      }
      assert calls[..|calls|] == calls;
    }

    method Execute(ctx: RepoCtx, call: Call) returns (ok: bool)
      requires Lacks(ctx.repoName, '/')
      requires call.Publish? ==> GoodNames(ctx.PlaceOf(call.variant), call.artifacts)
      modifies this
      ensures var at := ctx.PlaceOf(call.variant);
              && OnlyTouches(at, old(files), files)
              && (ok && !at.InStage() && Consistent(old(files), at) ==> Consistent(files, at) && IsSigned(files, at, at.db))
    {
      ghost var before, at := files, ctx.PlaceOf(call.variant);
      DbIsName(ctx, call.variant);
      match call
      case Publish(v, artifacts, world) =>
        var r := PublishWith(ctx, v, artifacts, world);
        ok := r.Ok?;
        if ok && !at.InStage() && Consistent(before, at) {
          PublishKeepsConsistent(before, files, at, artifacts);
        }
      case Remove(v, package, world) =>
        var r := RemoveWith(ctx, v, package, world);
        ok := r.Ok?;
        if ok && Consistent(before, at) {
          RemoveKeepsConsistent(before, files, at, package);
        }
    }
  }

  /** The calls for `v` all succeed, on a repository that was consistent and is not staging space. */
  ghost predicate Serves(calls: seq<Call>, results: seq<bool>, v: Variant, start: Files, at: Place)
    requires |results| == |calls|
  {
    && !at.InStage() && Consistent(start, at)
    && forall k | 0 <= k < |calls| && calls[k].variant == v :: results[k]
  }

  /** The repository of `v` is consistent, and signed once a call was made for it. */
  ghost predicate Holds(calls: seq<Call>, v: Variant, files: Files, at: Place) {
    Consistent(files, at) && ((exists k :: 0 <= k < |calls| && calls[k].variant == v) ==> IsSigned(files, at, at.db))
  }

  lemma OneMoreCall(calls: seq<Call>, results: seq<bool>, call: Call, ok: bool, v: Variant, start: Files, files: Files, at: Place)
    requires |results| == |calls|
    ensures Serves(calls + [call], results + [ok], v, start, at) ==> Serves(calls, results, v, start, at) && (call.variant == v ==> ok)
    ensures Holds(calls, v, files, at) && call.variant != v ==> Holds(calls + [call], v, files, at)
    ensures Consistent(files, at) && IsSigned(files, at, at.db) ==> Holds(calls + [call], v, files, at)
  {
    var all, done := calls + [call], results + [ok];
    assert forall k | 0 <= k < |calls| :: all[k] == calls[k] && done[k] == results[k];
    assert all[|calls|] == call && done[|calls|] == ok;
  }

  lemma DbPaths(at: Place)
    requires GoodDb(at)
    ensures var db := at.db;
            && IsName(db) && IsName(SigOf(db)) && SigOf(db) != db
            && at.DbSig() == at.PathOf(SigOf(db)) && at.DbSig() != at.DbPath()
            && InDir(at.dir, at.DbSig())
  {
    var db := at.db;
    SigPath(at.dir, db);
    SigEnds(db);
    NamesAreInDir(at.dir, SigOf(db));
    JoinIsInjective(at.dir, db, SigOf(db));
  }

  /** Writing the database and its companions removes no artifact. */
  lemma StillThere(files: Files, at: Place, artifacts: seq<Artifact>, changes: seq<Change>, entries: map<string, string>)
    requires GoodNames(at, artifacts)
    requires forall i | 0 <= i < |artifacts| :: at.PathOf(artifacts[i].name) in files
    ensures forall i | 0 <= i < |artifacts| ::
              at.PathOf(artifacts[i].name) in WithDatabase(WithCompanions(files, at, changes), at, entries)
  {
    forall i | 0 <= i < |artifacts|
      ensures at.PathOf(artifacts[i].name) in WithCompanions(files, at, changes)
    {
      GoodIsNoCompanion(at, artifacts[i].name);
      CompanionsAt(files, at, changes, artifacts[i].name);
    }
  }

  lemma {:induction false} CopiedPresent(files: Files, at: Place, artifacts: seq<Artifact>)
    ensures var copied := WithCopies(files, at, artifacts);
            && (forall i | 0 <= i < |artifacts| :: at.PathOf(artifacts[i].name) in copied)
    ensures forall f: Files :: f.Keys <= WithStaged(f, at, artifacts).Keys
  {
    if artifacts != [] {
      CopiedPresent(files, at, artifacts[..|artifacts| - 1]);
      assert artifacts == artifacts[..|artifacts| - 1] + [artifacts[|artifacts| - 1]];
    }
  }
}
