/**
 * AbstractNativeBuildable.getBuildSteps as the source runs it: a step-list
 * builder, a sorted-set builder for the object files and a hash set of the
 * directories already created, filled in two loops.
 */
module NativeBuildable {
  import opened Wrappers
  import opened Paths
  import opened NativeSteps

  /** A mutable set of paths (a HashSet, or an ImmutableSortedSet.Builder), seen as its elements. */
  class PathSet {
    var elements: set<Path>

    constructor ()
      ensures elements == {}
    {
      elements := {};
    }

    /** `Set.add`: true exactly when the path was not there yet. */
    method Add(p: Path) returns (added: bool)
      modifies this
      ensures added <==> p !in old(elements)
      ensures elements == old(elements) + {p}
    {
      added := p !in elements;
      elements := elements + {p};
    }
  }

  /** An ImmutableList.Builder of steps, seen as the steps added so far. */
  class StepList {
    var steps: seq<Step>

    constructor ()
      ensures steps == []
    {
      steps := [];
    }

    method Add(s: Step)
      modifies this
      ensures steps == old(steps) + [s]
    {
      steps := steps + [s];
    }

    method AddAll(ss: seq<Step>)
      modifies this
      ensures steps == old(steps) + ss
    {
      steps := steps + ss;
    }
  }

  /** Adds a `mkdir` of `directory` unless it was created before; either way it counts as created afterwards. */
  method AddMkdirStepIfNeeded(createdDirectories: PathSet, steps: StepList, directory: Path)
    modifies createdDirectories, steps
    ensures createdDirectories.elements == old(createdDirectories.elements) + {directory}
    ensures steps.steps == old(steps.steps) + MkdirIfNeeded(old(createdDirectories.elements), directory)
  {
    var added := createdDirectories.Add(directory);
    if added {
      steps.Add(Mkdir(directory));
    }
  }

  /**
   * The body of the loop over the sources, for one relative source: the `mkdir`
   * of its target directory if needed, its compile step, and its object file.
   */
  method AddSourceSteps(src: SourcePath, compiler: string,
                        createdDirectories: PathSet, steps: StepList, objectFiles: PathSet)
    requires !src.Resolve().absolute
    requires createdDirectories != objectFiles
    modifies createdDirectories, steps, objectFiles
    ensures createdDirectories.elements == old(createdDirectories.elements) + {TargetDir(src.Resolve())}
    ensures steps.steps == old(steps.steps)
      + MkdirIfNeeded(old(createdDirectories.elements), TargetDir(src.Resolve()))
      + [CompileStep(compiler, src.Resolve())]
    ensures objectFiles.elements == old(objectFiles.elements) + {ObjectFile(src.Resolve())}
  {
    var srcFile := src.Resolve();
    var parent := Parent(srcFile);
    if parent.None? {
      parent := Some(EmptyPath);
    }
    // Object files mirror the sources' directories, so that they cannot collide.
    var targetDir := Resolve(GenPath, parent.value);
    AddMkdirStepIfNeeded(createdDirectories, steps, targetDir);

    var objectFile := Resolve(targetDir, Path(false, [NameWithoutExtension(FileName(srcFile)) + ObjectExtension]));
    steps.Add(Compiler(compiler, false, {src.Resolve()}, objectFile, true, {}));
    var _ := objectFiles.Add(objectFile);
  }

  /** The loop over the deps: the output file of each C++-library dep joins the object files. */
  method AddLibraryOutputs(deps: seq<BuildRule>, objectFiles: PathSet)
    modifies objectFiles
    ensures objectFiles.elements == old(objectFiles.elements) + LibraryOutputs(deps)
  {
    for k := 0 to |deps|
      invariant objectFiles.elements == old(objectFiles.elements) + LibraryOutputs(deps[..k])
    {
      LibraryOutputsSnoc(deps, k);
      // Only C++ static libraries are linked in.
      if deps[k].buildable.CppLibrary? {
        var _ := objectFiles.Add(deps[k].buildable.pathToOutputFile);
      }
    }
    assert deps[..|deps|] == deps;
  }

  /**
   * The build steps of a native buildable, or the IllegalStateException raised
   * when a source resolves to an absolute path.
   */
  method GetBuildSteps(b: NativeBuildable) returns (r: Result<seq<Step>, BuildError>)
    requires Parent(b.pathToOutputFile).Some?
    ensures r == BuildSteps(b)
  {
    var steps := new StepList();
    var objectFiles := new PathSet();
    var createdDirectories := new PathSet();

    AddMkdirStepIfNeeded(createdDirectories, steps, Parent(b.pathToOutputFile).value);

    ghost var paths := ResolvedSources(b.srcs);
    ghost var head := HeadSteps(b);
    assert createdDirectories.elements == {OutputDir(b)} && steps.steps == [Mkdir(OutputDir(b))];
    assert paths[0..] == paths;
    for i := 0 to |b.srcs|
      modifies steps, createdDirectories, objectFiles
      invariant forall j :: 0 <= j < i ==> !paths[j].absolute
      invariant steps.steps + SourceSteps(createdDirectories.elements, paths[i..], b.compiler) == head
      invariant objectFiles.elements == SourceObjects(paths[..i])
    {
      // The source is expected to be relative to the project root.
      if b.srcs[i].Resolve().absolute {
        assert HasAbsoluteSource(b) by {
          assert b.srcs[i].Resolve().absolute;
        }
        return Failure(IllegalState);
      }
      assert b.srcs[i].Resolve() == paths[i];
      SourceStepsAt(steps.steps, createdDirectories.elements, paths, i, b.compiler, head);
      SourceObjectsSnoc(paths, i);
      AddSourceSteps(b.srcs[i], b.compiler, createdDirectories, steps, objectFiles);
    }
    assert steps.steps == head by {
      assert paths[|b.srcs|..] == [];
    }
    assert objectFiles.elements == SourceObjects(paths) by {
      assert paths[..|b.srcs|] == paths;
    }
    assert !HasAbsoluteSource(b) by {
      forall j | 0 <= j < |b.srcs| ensures !b.srcs[j].Resolve().absolute {
        assert paths[j] == b.srcs[j].Resolve();
      }
    }

    AddLibraryOutputs(b.deps, objectFiles);

    steps.AddAll(b.finalBuildSteps(objectFiles.elements, b.pathToOutputFile));
    r := Success(steps.steps);
    assert r == BuildSteps(b) by {
      assert steps.steps == head + b.finalBuildSteps(ObjectFiles(b), b.pathToOutputFile);
    }
  }
}
