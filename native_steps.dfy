/**
 * The build-step plan of Buck's AbstractNativeBuildable.getBuildSteps, as
 * functions of the buildable: one `mkdir` for the output's parent, then for
 * each source a `mkdir` of its mirrored directory under GEN_PATH (once per
 * directory) and a non-linking compile into an `.o` file, then the subclass's
 * final steps over the object files.
 */
module NativeSteps {
  import opened Wrappers
  import opened Paths

  /** AbstractNativeBuildable.OBJECT_EXTENSION. */
  const ObjectExtension: string := ".o"

  /** BuckConstant.GEN_PATH, the relative path `buck-out/gen`. */
  const GenPath: Path := Path(false, ["buck-out", "gen"])

  /** A source given by a path relative to the project root; resolving it yields that path. */
  datatype SourcePath = PathSourcePath(relativePath: Path) {
    function Resolve(): Path {
      relativePath
    }
  }

  /** The steps the plan is made of; `Other` stands for any step of the subclass's final steps. */
  datatype Step =
    | Mkdir(dir: Path)
    | Compiler(compiler: string, shouldLink: bool, srcs: set<Path>, outputFile: Path,
               shouldAddProjectRootToIncludePaths: bool, includePaths: set<Path>)
    | Other(description: string)

  /** What a dependency builds: a C++ static library, or something the plan ignores. */
  datatype Buildable = CppLibrary(pathToOutputFile: Path) | OtherBuildable(pathToOutputFile: Path)

  datatype BuildRule = BuildRule(buildable: Buildable)

  /** The IllegalStateException raised by `Preconditions.checkState`. */
  datatype BuildError = IllegalState

  /**
   * A native buildable: its deps and sources in their sorted-set order, and the
   * values of its abstract members `getCompiler()`, `getPathToOutputFile()` and
   * `getFinalBuildSteps(objectFiles, outputFile)`.
   */
  datatype NativeBuildable = NativeBuildable(
    deps: seq<BuildRule>,
    srcs: seq<SourcePath>,
    compiler: string,
    pathToOutputFile: Path,
    finalBuildSteps: (set<Path>, Path) -> seq<Step>)

  // ---------------------------------------------------------------------------
  // File names

  /** `String.lastIndexOf(c)`: the last position of `c` in `s`, or -1 when there is none. */
  function LastIndexOf(s: string, c: char): (i: int)
    ensures -1 <= i < |s|
    ensures i >= 0 ==> s[i] == c
    ensures forall j :: i < j < |s| ==> s[j] != c
  {
    if s == [] then -1
    else if s[|s| - 1] == c then |s| - 1
    else LastIndexOf(s[..|s| - 1], c)
  }

  /** Guava's `Files.getNameWithoutExtension`: drops the last `.` and what follows it. */
  function NameWithoutExtension(fileName: string): (r: string)
    ensures r <= fileName
    ensures '.' !in fileName ==> r == fileName
    ensures '.' in fileName ==> |r| < |fileName| && fileName[|r|] == '.'
    ensures forall j :: |r| < j < |fileName| ==> fileName[j] != '.'
  {
    var dotIndex := LastIndexOf(fileName, '.');
    if dotIndex == -1 then fileName else fileName[..dotIndex]
  }

  // ---------------------------------------------------------------------------
  // Where a source's object file goes

  /** The source's parent directory, or the empty path when it has none. */
  function SourceParent(src: Path): Path {
    match Parent(src)
    case None => EmptyPath
    case Some(p) => p
  }

  /** The directory under GEN_PATH that mirrors the source's own directory. */
  function TargetDir(src: Path): Path {
    Resolve(GenPath, SourceParent(src))
  }

  /** The object file: the target directory joined with the file name minus its extension, plus `.o`. */
  function ObjectFile(src: Path): Path {
    Resolve(TargetDir(src), Path(false, [NameWithoutExtension(FileName(src)) + ObjectExtension]))
  }

  /** The non-linking compile of one source into its object file. */
  function CompileStep(compiler: string, src: Path): Step {
    Compiler(compiler, false, {src}, ObjectFile(src), true, {})
  }

  // ---------------------------------------------------------------------------
  // The plan

  /** The effect of `addMkdirStepIfNeeded` on the step list, given the directories already created. */
  function MkdirIfNeeded(created: set<Path>, dir: Path): seq<Step> {
    if dir in created then [] else [Mkdir(dir)]
  }

  /** The steps for the remaining sources, given the directories already created. */
  function SourceSteps(created: set<Path>, paths: seq<Path>, compiler: string): seq<Step>
    decreases |paths|
  {
    if paths == [] then []
    else
      var dir := TargetDir(paths[0]);
      MkdirIfNeeded(created, dir) + [CompileStep(compiler, paths[0])]
        + SourceSteps(created + {dir}, paths[1..], compiler)
  }

  function ResolvedSources(srcs: seq<SourcePath>): seq<Path> {
    seq(|srcs|, i requires 0 <= i < |srcs| => srcs[i].Resolve())
  }

  function OutputDir(b: NativeBuildable): Path
    requires Parent(b.pathToOutputFile).Some?
  {
    Parent(b.pathToOutputFile).value
  }

  /** Everything the plan adds before the final steps. */
  function HeadSteps(b: NativeBuildable): seq<Step>
    requires Parent(b.pathToOutputFile).Some?
  {
    [Mkdir(OutputDir(b))] + SourceSteps({OutputDir(b)}, ResolvedSources(b.srcs), b.compiler)
  }

  /** The object files of the sources, in source order. */
  function ObjectFileList(paths: seq<Path>): seq<Path> {
    seq(|paths|, i requires 0 <= i < |paths| => ObjectFile(paths[i]))
  }

  /** The object files of the sources, as a set. */
  function SourceObjects(paths: seq<Path>): set<Path> {
    set o | o in ObjectFileList(paths)
  }

  /** The output files of the deps that build C++ libraries. */
  function LibraryOutputs(deps: seq<BuildRule>): set<Path>
    decreases |deps|
  {
    if deps == [] then {}
    else
      var d := deps[|deps| - 1];
      LibraryOutputs(deps[..|deps| - 1]) + (if d.buildable.CppLibrary? then {d.buildable.pathToOutputFile} else {})
  }

  /** The object-file set handed to the final steps. */
  function ObjectFiles(b: NativeBuildable): set<Path> {
    SourceObjects(ResolvedSources(b.srcs)) + LibraryOutputs(b.deps)
  }

  predicate HasAbsoluteSource(b: NativeBuildable) {
    exists i :: 0 <= i < |b.srcs| && b.srcs[i].Resolve().absolute
  }

  /** What `getBuildSteps` returns, or the exception it throws on an absolute source. */
  function BuildSteps(b: NativeBuildable): Result<seq<Step>, BuildError>
    requires Parent(b.pathToOutputFile).Some?
  {
    if HasAbsoluteSource(b) then Failure(IllegalState)
    else Success(HeadSteps(b) + b.finalBuildSteps(ObjectFiles(b), b.pathToOutputFile))
  }

  /** The compile steps of a step list, in order. */
  function Compiles(steps: seq<Step>): seq<Step> {
    if steps == [] then []
    else (if steps[0].Compiler? then [steps[0]] else []) + Compiles(steps[1..])
  }

  /** The directory that compile step `k` writes into already exists before it runs. */
  ghost predicate DirReadyBefore(s: seq<Step>, k: int, created: set<Path>)
    requires 0 <= k < |s| && s[k].Compiler?
  {
    Parent(s[k].outputFile).Some? &&
    var d := Parent(s[k].outputFile).value;
    d in created || exists j :: 0 <= j < k && s[j] == Mkdir(d)
  }

  // ---------------------------------------------------------------------------
  // File names and directories

  /** The extension is what follows the last dot, so dropping it leaves the stem before that dot. */
  lemma NameWithoutExtensionOf(stem: string, ext: string)
    requires '.' !in ext
    ensures NameWithoutExtension(stem + "." + ext) == stem
  {
    var s := stem + "." + ext;
    var i := LastIndexOf(s, '.');
    assert s[|stem|] == '.';
    forall j | |stem| < j < |s| ensures s[j] != '.' {
      assert s[j] == ext[j - |stem| - 1];
    }
    assert i == |stem|;
    assert s[..i] == stem;
  }

  lemma NameWithoutExtensionExamples()
    ensures NameWithoutExtension("foo.cpp") == "foo"
    ensures NameWithoutExtension("foo.tar.gz") == "foo.tar"
    ensures NameWithoutExtension("Makefile") == "Makefile"
  {
    NameWithoutExtensionOf("foo", "cpp");
    assert "foo" + "." + "cpp" == "foo.cpp";
    NameWithoutExtensionOf("foo.tar", "gz");
    assert "foo.tar" + "." + "gz" == "foo.tar.gz";
  }

  /** A source with no parent goes to GEN_PATH itself, otherwise to GEN_PATH/<parent>. */
  lemma TargetDirShape(src: Path)
    requires !src.absolute
    ensures |src.names| <= 1 ==> TargetDir(src) == GenPath
    ensures |src.names| > 1 ==> TargetDir(src) == Path(false, GenPath.names + src.names[..|src.names| - 1])
  {
  }

  /** The object file of a relative source sits in its target directory, named after the source without its extension. */
  lemma ObjectFileShape(src: Path)
    requires !src.absolute
    ensures ObjectFile(src) == Path(false, TargetDir(src).names + [NameWithoutExtension(FileName(src)) + ".o"])
  {
  }

  /** The directory an object file is written to is the source's target directory. */
  lemma ObjectFileParent(src: Path)
    ensures Parent(ObjectFile(src)) == Some(TargetDir(src))
  {
    var t := TargetDir(src);
    var names := t.names + [NameWithoutExtension(FileName(src)) + ObjectExtension];
    assert t.absolute || |t.names| >= 2;
    assert names[..|names| - 1] == t.names;
  }

  /** A relative source's own directory is relative too. */
  lemma SourceParentRelative(src: Path)
    requires !src.absolute
    ensures !SourceParent(src).absolute
    ensures TargetDir(src) == Path(false, GenPath.names + SourceParent(src).names)
  {
  }

  /**
   * Object files follow the sources' directories, so relative sources in
   * different directories never share an object file.
   */
  lemma ObjectFilesOfDistinctDirs(s1: Path, s2: Path)
    requires !s1.absolute && !s2.absolute
    requires SourceParent(s1) != SourceParent(s2)
    ensures ObjectFile(s1) != ObjectFile(s2)
  {
    ObjectFileParent(s1);
    ObjectFileParent(s2);
    SourceParentRelative(s1);
    SourceParentRelative(s2);
    var g := GenPath.names;
    var n1 := SourceParent(s1).names;
    var n2 := SourceParent(s2).names;
    assert n1 != n2;
    assert (g + n1)[|g|..] == n1 && (g + n2)[|g|..] == n2;
    assert TargetDir(s1) != TargetDir(s2);
  }

  lemma ObjectFileOneDir(d: string, f: string)
    ensures ObjectFile(Path(false, [d, f]))
      == Path(false, GenPath.names + [d, NameWithoutExtension(f) + ObjectExtension])
  {
    var src := Path(false, [d, f]);
    assert [d, f][..1] == [d];
    assert SourceParent(src) == Path(false, [d]);
    assert FileName(src) == f;
  }

  /**
   * Within one directory nothing keeps object files apart: `lib/foo.c` and
   * `lib/foo.cpp` are both compiled into `buck-out/gen/lib/foo.o`.
   */
  lemma ObjectFileSameStem()
    ensures ObjectFile(Path(false, ["lib", "foo.c"])) == Path(false, ["buck-out", "gen", "lib", "foo.o"])
    ensures ObjectFile(Path(false, ["lib", "foo.cpp"])) == Path(false, ["buck-out", "gen", "lib", "foo.o"])
  {
    NameWithoutExtensionOf("foo", "c");
    assert "foo" + "." + "c" == "foo.c";
    NameWithoutExtensionOf("foo", "cpp");
    assert "foo" + "." + "cpp" == "foo.cpp";
    assert "foo" + ObjectExtension == "foo.o";
    ObjectFileOneDir("lib", "foo.c");
    ObjectFileOneDir("lib", "foo.cpp");
  }

  // ---------------------------------------------------------------------------
  // Lemmas about SourceSteps, for any set of directories already created

  /** No `mkdir` in `s` is of a directory already created. */
  ghost predicate MkdirsFresh(s: seq<Step>, created: set<Path>) {
    forall i :: 0 <= i < |s| && s[i].Mkdir? ==> s[i].dir !in created
  }

  /** No two `mkdir`s in `s` are of the same directory. */
  ghost predicate MkdirsDistinct(s: seq<Step>) {
    forall i, j :: 0 <= i < j < |s| && s[i].Mkdir? && s[j].Mkdir? ==> s[i].dir != s[j].dir
  }

  /** Every compile step in `s` writes into a directory created before it or already there. */
  ghost predicate DirsReady(s: seq<Step>, created: set<Path>) {
    forall k :: 0 <= k < |s| && s[k].Compiler? ==> DirReadyBefore(s, k, created)
  }

  /** One source's own steps, followed by the rest. */
  lemma SourceStepsUnfold(created: set<Path>, paths: seq<Path>, c: string)
    requires paths != []
    ensures var dir := TargetDir(paths[0]);
      SourceSteps(created, paths, c)
        == MkdirIfNeeded(created, dir) + [CompileStep(c, paths[0])] + SourceSteps(created + {dir}, paths[1..], c)
  {
  }

  /** Emitting source `i`'s own steps keeps `done + SourceSteps(...)` equal to the whole plan. */
  lemma SourceStepsAt(done: seq<Step>, created: set<Path>, paths: seq<Path>, i: nat, c: string, whole: seq<Step>)
    requires i < |paths|
    requires done + SourceSteps(created, paths[i..], c) == whole
    ensures var dir := TargetDir(paths[i]);
      done + MkdirIfNeeded(created, dir) + [CompileStep(c, paths[i])] + SourceSteps(created + {dir}, paths[i + 1..], c) == whole
  {
    SourceStepsUnfold(created, paths[i..], c);
    assert paths[i..][1..] == paths[i + 1..];
  }

  /** Adding source `i`'s object file to those of the sources before it. */
  lemma SourceObjectsSnoc(paths: seq<Path>, i: nat)
    requires i < |paths|
    ensures SourceObjects(paths[..i + 1]) == SourceObjects(paths[..i]) + {ObjectFile(paths[i])}
  {
    assert ObjectFileList(paths[..i + 1]) == ObjectFileList(paths[..i]) + [ObjectFile(paths[i])];
  }

  /** Adding dep `k`'s contribution to that of the deps before it. */
  lemma LibraryOutputsSnoc(deps: seq<BuildRule>, k: nat)
    requires k < |deps|
    ensures LibraryOutputs(deps[..k + 1]) == LibraryOutputs(deps[..k])
      + (if deps[k].buildable.CppLibrary? then {deps[k].buildable.pathToOutputFile} else {})
  {
    assert deps[..k + 1][..k] == deps[..k];
  }

  lemma {:induction false} SourceStepsMkdirsFresh(created: set<Path>, paths: seq<Path>, c: string)
    ensures MkdirsFresh(SourceSteps(created, paths, c), created)
    decreases |paths|
  {
    if paths != [] {
      var dir := TargetDir(paths[0]);
      var head := MkdirIfNeeded(created, dir) + [CompileStep(c, paths[0])];
      var rest := SourceSteps(created + {dir}, paths[1..], c);
      SourceStepsMkdirsFresh(created + {dir}, paths[1..], c);
      assert MkdirsFresh(rest, created + {dir});
      SourceStepsUnfold(created, paths, c);
      var s := head + rest;
      forall i | 0 <= i < |s| && s[i].Mkdir? ensures s[i].dir !in created {
        if i >= |head| {
          assert s[i] == rest[i - |head|];
        }
      }
    }
  }

  lemma {:induction false} SourceStepsMkdirsDistinct(created: set<Path>, paths: seq<Path>, c: string)
    ensures MkdirsDistinct(SourceSteps(created, paths, c))
    decreases |paths|
  {
    if paths != [] {
      var dir := TargetDir(paths[0]);
      var head := MkdirIfNeeded(created, dir) + [CompileStep(c, paths[0])];
      var rest := SourceSteps(created + {dir}, paths[1..], c);
      SourceStepsMkdirsDistinct(created + {dir}, paths[1..], c);
      SourceStepsMkdirsFresh(created + {dir}, paths[1..], c);
      assert MkdirsDistinct(rest) && MkdirsFresh(rest, created + {dir});
      SourceStepsUnfold(created, paths, c);
      var s := head + rest;
      forall i, j | 0 <= i < j < |s| && s[i].Mkdir? && s[j].Mkdir? ensures s[i].dir != s[j].dir {
        assert s[j] == rest[j - |head|];
        if i >= |head| {
          assert s[i] == rest[i - |head|];
        } else {
          assert s[i] == Mkdir(dir);
        }
      }
    }
  }

  /** A compile step of `rest` that was ready stays ready behind `head`, when `head` makes `dir` unless it existed. */
  lemma DirReadyShift(head: seq<Step>, rest: seq<Step>, k: nat, created: set<Path>, dir: Path)
    requires k < |rest| && rest[k].Compiler?
    requires DirReadyBefore(rest, k, created + {dir})
    requires dir in created || (|head| > 0 && head[0] == Mkdir(dir))
    ensures DirReadyBefore(head + rest, |head| + k, created)
  {
    var s := head + rest;
    assert s[|head| + k] == rest[k];
    var d := Parent(rest[k].outputFile).value;
    if exists j :: 0 <= j < k && rest[j] == Mkdir(d) {
      var j :| 0 <= j < k && rest[j] == Mkdir(d);
      assert s[j + |head|] == Mkdir(d);
    } else if d == dir && dir !in created {
      assert s[0] == Mkdir(d);
    }
  }

  lemma {:induction false} SourceStepsDirReady(created: set<Path>, paths: seq<Path>, c: string)
    ensures DirsReady(SourceSteps(created, paths, c), created)
    decreases |paths|
  {
    if paths != [] {
      var dir := TargetDir(paths[0]);
      var m := MkdirIfNeeded(created, dir);
      var head := m + [CompileStep(c, paths[0])];
      var rest := SourceSteps(created + {dir}, paths[1..], c);
      SourceStepsDirReady(created + {dir}, paths[1..], c);
      assert DirsReady(rest, created + {dir});
      var s := SourceSteps(created, paths, c);
      SourceStepsUnfold(created, paths, c);
      assert s == head + rest;
      ObjectFileParent(paths[0]);
      forall k | 0 <= k < |s| && s[k].Compiler? ensures DirReadyBefore(s, k, created) {
        if k < |head| {
          assert k == |m| && s[k] == CompileStep(c, paths[0]);
          if dir !in created {
            assert s[0] == Mkdir(dir);
          }
        } else {
          var k' := k - |head|;
          assert rest[k'].Compiler? by { assert s[k] == rest[k']; }
          if dir !in created {
            assert head[0] == Mkdir(dir);
          }
          DirReadyShift(head, rest, k', created, dir);
        }
      }
    }
  }

  lemma {:induction false} CompilesAppend(a: seq<Step>, b: seq<Step>)
    ensures Compiles(a + b) == Compiles(a) + Compiles(b)
    decreases |a|
  {
    if a == [] {
      assert a + b == b;
    } else {
      var h := if a[0].Compiler? then [a[0]] else [];
      assert (a + b)[0] == a[0] && (a + b)[1..] == a[1..] + b;
      assert Compiles(a + b) == h + Compiles(a[1..] + b);
      CompilesAppend(a[1..], b);
      assert Compiles(a) == h + Compiles(a[1..]);
    }
  }

  /** The steps one source adds hold exactly one compile step. */
  lemma CompilesOfSourceHead(created: set<Path>, dir: Path, cs: Step, rest: seq<Step>)
    requires cs.Compiler?
    ensures Compiles(MkdirIfNeeded(created, dir) + [cs] + rest) == [cs] + Compiles(rest)
  {
    var m := MkdirIfNeeded(created, dir);
    CompilesAppend(m + [cs], rest);
    CompilesAppend(m, [cs]);
    assert Compiles(m) == [];
    assert Compiles([cs]) == [cs];
  }

  lemma {:induction false} SourceStepsCompiles(created: set<Path>, paths: seq<Path>, c: string)
    ensures var cs := Compiles(SourceSteps(created, paths, c));
      |cs| == |paths| && forall i :: 0 <= i < |paths| ==> cs[i] == CompileStep(c, paths[i])
    decreases |paths|
  {
    if paths != [] {
      var dir := TargetDir(paths[0]);
      var rest := SourceSteps(created + {dir}, paths[1..], c);
      SourceStepsUnfold(created, paths, c);
      SourceStepsCompiles(created + {dir}, paths[1..], c);
      CompilesOfSourceHead(created, dir, CompileStep(c, paths[0]), rest);
      var all := Compiles(SourceSteps(created, paths, c));
      assert all == [CompileStep(c, paths[0])] + Compiles(rest);
      forall i | 0 <= i < |paths| ensures all[i] == CompileStep(c, paths[i]) {
        if i > 0 {
          assert all[i] == Compiles(rest)[i - 1];
          assert paths[1..][i - 1] == paths[i];
        }
      }
    }
  }

  /** Every step of `s` is a `mkdir` or a compile. */
  ghost predicate OnlyMkdirAndCompile(s: seq<Step>) {
    forall k :: 0 <= k < |s| ==> s[k].Mkdir? || s[k].Compiler?
  }

  lemma {:induction false} SourceStepsKinds(created: set<Path>, paths: seq<Path>, c: string)
    ensures OnlyMkdirAndCompile(SourceSteps(created, paths, c))
    decreases |paths|
  {
    if paths != [] {
      var dir := TargetDir(paths[0]);
      SourceStepsUnfold(created, paths, c);
      SourceStepsKinds(created + {dir}, paths[1..], c);
      var head := MkdirIfNeeded(created, dir) + [CompileStep(c, paths[0])];
      var rest := SourceSteps(created + {dir}, paths[1..], c);
      assert OnlyMkdirAndCompile(head);
      assert OnlyMkdirAndCompile(rest);
      var s := head + rest;
      forall k | 0 <= k < |s| ensures s[k].Mkdir? || s[k].Compiler? {
        if k >= |head| {
          assert s[k] == rest[k - |head|];
        }
      }
    }
  }

  /** Every directory the source loop makes is the target directory of one of the sources. */
  ghost predicate MkdirsOfTargets(s: seq<Step>, paths: seq<Path>) {
    forall k :: 0 <= k < |s| && s[k].Mkdir? ==> exists i :: 0 <= i < |paths| && s[k].dir == TargetDir(paths[i])
  }

  /** A `mkdir` of `rest` that makes a later source's target directory keeps doing so behind `head`. */
  lemma MkdirTargetShift(head: seq<Step>, rest: seq<Step>, paths: seq<Path>, k: nat)
    requires paths != []
    requires k < |rest| && rest[k].Mkdir?
    requires MkdirsOfTargets(rest, paths[1..])
    ensures exists i :: 0 <= i < |paths| && (head + rest)[|head| + k].dir == TargetDir(paths[i])
  {
    assert (head + rest)[|head| + k] == rest[k];
    var i :| 0 <= i < |paths[1..]| && rest[k].dir == TargetDir(paths[1..][i]);
    assert paths[1..][i] == paths[i + 1];
  }

  lemma {:induction false} SourceStepsMkdirTargets(created: set<Path>, paths: seq<Path>, c: string)
    ensures MkdirsOfTargets(SourceSteps(created, paths, c), paths)
    decreases |paths|
  {
    if paths != [] {
      var dir := TargetDir(paths[0]);
      SourceStepsUnfold(created, paths, c);
      SourceStepsMkdirTargets(created + {dir}, paths[1..], c);
      var head := MkdirIfNeeded(created, dir) + [CompileStep(c, paths[0])];
      var rest := SourceSteps(created + {dir}, paths[1..], c);
      assert MkdirsOfTargets(rest, paths[1..]);
      var s := head + rest;
      forall k | 0 <= k < |s| && s[k].Mkdir? ensures exists i :: 0 <= i < |paths| && s[k].dir == TargetDir(paths[i]) {
        if k >= |head| {
          MkdirTargetShift(head, rest, paths, k - |head|);
        } else {
          assert s[k].dir == TargetDir(paths[0]);
        }
      }
    }
  }

  lemma SourceObjectsMembers(paths: seq<Path>)
    ensures forall p :: p in SourceObjects(paths) <==> exists i :: 0 <= i < |paths| && p == ObjectFile(paths[i])
  {
    var l := ObjectFileList(paths);
    forall p | p in SourceObjects(paths) ensures exists i :: 0 <= i < |paths| && p == ObjectFile(paths[i]) {
      var i :| 0 <= i < |l| && l[i] == p;
    }
    forall i | 0 <= i < |paths| ensures ObjectFile(paths[i]) in SourceObjects(paths) {
      assert l[i] == ObjectFile(paths[i]);
    }
  }

  lemma {:induction false} LibraryOutputsMembers(deps: seq<BuildRule>)
    ensures forall p :: p in LibraryOutputs(deps) <==>
      exists j :: 0 <= j < |deps| && deps[j].buildable.CppLibrary? && p == deps[j].buildable.pathToOutputFile
    decreases |deps|
  {
    if deps != [] {
      var init := deps[..|deps| - 1];
      LibraryOutputsMembers(init);
      forall p | p in LibraryOutputs(deps)
        ensures exists j :: 0 <= j < |deps| && deps[j].buildable.CppLibrary? && p == deps[j].buildable.pathToOutputFile
      {
        if p in LibraryOutputs(init) {
          var j :| 0 <= j < |init| && init[j].buildable.CppLibrary? && p == init[j].buildable.pathToOutputFile;
          assert deps[j] == init[j];
        }
      }
      forall p | exists j :: 0 <= j < |deps| && deps[j].buildable.CppLibrary? && p == deps[j].buildable.pathToOutputFile
        ensures p in LibraryOutputs(deps)
      {
        var j :| 0 <= j < |deps| && deps[j].buildable.CppLibrary? && p == deps[j].buildable.pathToOutputFile;
        if j < |deps| - 1 {
          assert deps[j] == init[j];
        }
      }
    }
  }

  // ---------------------------------------------------------------------------
  // Properties of the whole plan

  /** The plan fails exactly when some source resolves to an absolute path. */
  lemma BuildStepsFailure(b: NativeBuildable)
    requires Parent(b.pathToOutputFile).Some?
    ensures BuildSteps(b) == Failure(IllegalState) <==> exists i :: 0 <= i < |b.srcs| && b.srcs[i].Resolve().absolute
    ensures BuildSteps(b).Success? <==> forall i :: 0 <= i < |b.srcs| ==> !b.srcs[i].Resolve().absolute
  {
  }

  /**
   * The layout: first the `mkdir` of the output's parent, then only `mkdir` and
   * compile steps, and last the final steps over the object files, with nothing
   * else added.
   */
  lemma BuildStepsLayout(b: NativeBuildable)
    requires Parent(b.pathToOutputFile).Some?
    requires BuildSteps(b).Success?
    ensures var steps := BuildSteps(b).value;
      var h := HeadSteps(b);
      var f := b.finalBuildSteps(ObjectFiles(b), b.pathToOutputFile);
      && |steps| == |h| + |f|
      && steps[0] == Mkdir(Parent(b.pathToOutputFile).value)
      && steps[..|h|] == h
      && OnlyMkdirAndCompile(steps[..|h|])
      && steps[|h|..] == f
  {
    var h := HeadSteps(b);
    var s := SourceSteps({OutputDir(b)}, ResolvedSources(b.srcs), b.compiler);
    var steps := BuildSteps(b).value;
    SourceStepsKinds({OutputDir(b)}, ResolvedSources(b.srcs), b.compiler);
    assert steps[..|h|] == h;
    forall k | 0 <= k < |h| ensures h[k].Mkdir? || h[k].Compiler? {
      if k > 0 {
        assert h[k] == s[k - 1];
      }
    }
  }

  /** No directory is created twice before the final steps, the output's parent included. */
  lemma NoDuplicateMkdir(b: NativeBuildable)
    requires Parent(b.pathToOutputFile).Some?
    ensures MkdirsDistinct(HeadSteps(b))
  {
    var o := OutputDir(b);
    var s := SourceSteps({o}, ResolvedSources(b.srcs), b.compiler);
    var h := HeadSteps(b);
    SourceStepsMkdirsFresh({o}, ResolvedSources(b.srcs), b.compiler);
    SourceStepsMkdirsDistinct({o}, ResolvedSources(b.srcs), b.compiler);
    assert MkdirsFresh(s, {o}) && MkdirsDistinct(s);
    forall i, j | 0 <= i < j < |h| && h[i].Mkdir? && h[j].Mkdir? ensures h[i].dir != h[j].dir {
      assert h[j] == s[j - 1];
      if i > 0 {
        assert h[i] == s[i - 1];
      }
    }
  }

  /**
   * The plan makes no other directories than the output's parent and the
   * sources' target directories; with `MkdirBeforeCompile`, it makes each of them.
   */
  lemma PlanMkdirs(b: NativeBuildable)
    requires Parent(b.pathToOutputFile).Some?
    ensures var h := HeadSteps(b);
      forall k :: 0 <= k < |h| && h[k].Mkdir? ==>
        || h[k].dir == OutputDir(b)
        || exists i :: 0 <= i < |b.srcs| && h[k].dir == TargetDir(b.srcs[i].Resolve())
  {
    var o := OutputDir(b);
    var paths := ResolvedSources(b.srcs);
    var s := SourceSteps({o}, paths, b.compiler);
    var h := HeadSteps(b);
    SourceStepsMkdirTargets({o}, paths, b.compiler);
    forall k | 0 <= k < |h| && h[k].Mkdir? && k > 0
      ensures exists i :: 0 <= i < |b.srcs| && h[k].dir == TargetDir(b.srcs[i].Resolve())
    {
      assert h[k] == s[k - 1];
      var i :| 0 <= i < |paths| && s[k - 1].dir == TargetDir(paths[i]);
      assert paths[i] == b.srcs[i].Resolve();
    }
  }

  /** Every compile step comes after a `mkdir` of the directory its object file is written to. */
  lemma MkdirBeforeCompile(b: NativeBuildable)
    requires Parent(b.pathToOutputFile).Some?
    ensures DirsReady(HeadSteps(b), {})
  {
    var o := OutputDir(b);
    var s := SourceSteps({o}, ResolvedSources(b.srcs), b.compiler);
    var h := HeadSteps(b);
    SourceStepsDirReady({o}, ResolvedSources(b.srcs), b.compiler);
    assert DirsReady(s, {o});
    forall k | 0 <= k < |h| && h[k].Compiler? ensures DirReadyBefore(h, k, {}) {
      assert h[k] == s[k - 1];
      assert DirReadyBefore(s, k - 1, {o});
      var d := Parent(s[k - 1].outputFile).value;
      if d == o {
        assert h[0] == Mkdir(d);
      } else {
        var j :| 0 <= j < k - 1 && s[j] == Mkdir(d);
        assert h[j + 1] == Mkdir(d);
      }
    }
  }

  /**
   * Each source gets exactly one compile step, in source order: non-linking,
   * with the compiler, that source as sole input and its object file as output.
   */
  lemma OneCompilePerSource(b: NativeBuildable)
    requires Parent(b.pathToOutputFile).Some?
    ensures var cs := Compiles(HeadSteps(b)); var paths := ResolvedSources(b.srcs);
      && |cs| == |b.srcs|
      && forall i :: 0 <= i < |cs| ==>
           && cs[i].Compiler?
           && cs[i].compiler == b.compiler
           && !cs[i].shouldLink
           && cs[i].srcs == {b.srcs[i].Resolve()}
           && cs[i].outputFile == ObjectFile(b.srcs[i].Resolve())
           && cs[i].shouldAddProjectRootToIncludePaths
           && cs[i].includePaths == {}
  {
    var o := OutputDir(b);
    var paths := ResolvedSources(b.srcs);
    CompilesAppend([Mkdir(o)], SourceSteps({o}, paths, b.compiler));
    assert Compiles([Mkdir(o)]) == [];
    SourceStepsCompiles({o}, paths, b.compiler);
    assert Compiles(HeadSteps(b)) == Compiles(SourceSteps({o}, paths, b.compiler));
    forall i | 0 <= i < |b.srcs| ensures paths[i] == b.srcs[i].Resolve() {
    }
  }

  /** The object files are exactly the sources' object files and the outputs of the C++-library deps. */
  lemma ObjectFilesExact(b: NativeBuildable)
    ensures forall p :: p in ObjectFiles(b) <==>
      || (exists i :: 0 <= i < |b.srcs| && p == ObjectFile(b.srcs[i].Resolve()))
      || (exists j :: 0 <= j < |b.deps| && b.deps[j].buildable.CppLibrary? && p == b.deps[j].buildable.pathToOutputFile)
  {
    var paths := ResolvedSources(b.srcs);
    SourceObjectsMembers(paths);
    LibraryOutputsMembers(b.deps);
    forall p | p in SourceObjects(paths) ensures exists i :: 0 <= i < |b.srcs| && p == ObjectFile(b.srcs[i].Resolve()) {
      var i :| 0 <= i < |paths| && p == ObjectFile(paths[i]);
      assert paths[i] == b.srcs[i].Resolve();
    }
    forall i | 0 <= i < |b.srcs| ensures ObjectFile(b.srcs[i].Resolve()) in SourceObjects(paths) {
      assert paths[i] == b.srcs[i].Resolve();
    }
  }
}
