# Buck: Watchman change events and native build steps

This project models two parts of the Buck build tool in Dafny and proves properties about them.

**Watchman change-event translation.** Buck asks the Watchman file-watching daemon which files changed. `WatchmanWatcher.postEvents` turns each entry of the answer's `files` array into a `java.nio` watch event and posts it on a Guava `EventBus`. The steps are:

- An entry whose path lies at or under an excluded directory is dropped. Paths are compared name element by name element.
- If more entries survive than the overflow threshold allows, a single `OVERFLOW` event replaces them all.
- Otherwise each surviving entry gives one event, in order:
  - `ENTRY_DELETE` when `exists` is false;
  - else `ENTRY_CREATE` when `new` is true;
  - else `ENTRY_MODIFY`.

The model covers this behaviour as far as `WatchmanWatcherTest` pins it down:

- `Watchman.Translate` is the reference function.
- `Watchman.WatchmanWatcher.PostEvents` is the loop that posts the events to an `EventBus` object. It is proved to post exactly `Translate`.
- Each of the eight test cases is a method in `WatchmanScenarios`. Each promises what its test asserts.

**Native build steps.** `AbstractNativeBuildable.getBuildSteps` plans how C/C++ sources are compiled. The plan is built in this order:

1. a `mkdir` of the output file's parent directory;
2. for each source in order: a `mkdir` of the directory that mirrors the source's own directory under `buck-out/gen`, unless that directory was already made (the output's parent counts), then a non-linking compile into `<name-without-extension>.o` in that directory;
3. finally, the subclass's build steps, run over the set of object files. That set holds the sources' object files plus the output files of the deps that are C++ libraries.

So sources `a/x.c` and `b/y.c` give `mkdir buck-out/bin`, `mkdir buck-out/gen/a`, compile `x`, `mkdir buck-out/gen/b`, compile `y`, then the final steps.

A source that resolves to an absolute path raises `IllegalStateException`. Object files mirror the sources' directories, so sources in different directories never share one. Two sources in one directory whose names differ only in extension do share one: `lib/foo.c` and `lib/foo.cpp` both compile into `buck-out/gen/lib/foo.o`, and the object-file set holds it once (`NativeSteps.ObjectFileSameStem`). This is how the code behaves, and the model keeps it.

- `NativeSteps.BuildSteps` is the reference function.
- `NativeBuildable.GetBuildSteps` is the imperative version. It keeps the source's `addMkdirStepIfNeeded`, its builder objects and its two loops, and is proved equal to `BuildSteps`.
- Lemmas about `BuildSteps` state what the plan guarantees:
  - no directory is created twice;
  - every compile writes into a directory created before it;
  - each source gets exactly one compile step, in source order;
  - the layout of the plan;
  - exactly which files are object files;
  - exactly when the plan fails.

The file `paths.dfy` models `java.nio.file.Path` on a Unix file system. It covers `getParent`, `getFileName`, `resolve` and `startsWith`, and how `new File(s).toPath()` reads a pathname string. The empty path `Paths.get("")` is held as a path with no names. `startsWith` treats it as `java.nio` does, where it is one empty name: only the empty path starts with it.

## Model

| member | source | states |
|---|---|---|
| Paths.Parent | src/com/facebook/buck/cpp/AbstractNativeBuildable.java:106-109 | the definition of `getParent`: the path without its last name; a relative path with one name, the root and the empty path have none (no `null` parent for the root; see `Paths.ParentFileName`) |
| Paths.FileName | src/com/facebook/buck/cpp/AbstractNativeBuildable.java:116 | the definition of `getFileName().toString()`: the last name (see `Paths.ParentFileName`) |
| Paths.Resolve | src/com/facebook/buck/cpp/AbstractNativeBuildable.java:112-116 | the definition of `resolve`: an absolute argument wins, otherwise its names are appended (see `Paths.ResolveStartsWith`) |
| Paths.StartsWith | test/com/facebook/buck/util/WatchmanWatcherTest.java:184-188 | the definition of `startsWith`: same root and a name-by-name prefix, and only the empty path starts with the empty path (see `Paths.StartsWithEmpty`, `Watchman.ExclusionIsSegmentwise`) |
| Paths.Parse | test/com/facebook/buck/util/WatchmanWatcherTest.java:187 | reading a pathname gives a path of non-empty, separator-free names, absolute exactly when the string starts with `/` |
| Paths.ParseFormat | test/com/facebook/buck/util/WatchmanWatcherTest.java:187 | printing a well-formed path and reading it back gives the same path |
| Paths.NamesOfJoin | test/com/facebook/buck/util/WatchmanWatcherTest.java:187 | names joined by single separators, followed by a separator-led tail, read back as those names followed by the tail's names |
| Paths.ParentFileName | src/com/facebook/buck/cpp/AbstractNativeBuildable.java:106-116 | a path with a parent is that parent resolved against its file name |
| Paths.ResolveStartsWith | src/com/facebook/buck/cpp/AbstractNativeBuildable.java:112 | resolving a relative path keeps a non-empty base as a prefix; resolving against the empty path gives the other path itself; an absolute path replaces the base |
| Paths.StartsWithEmpty | test/com/facebook/buck/util/WatchmanWatcherTest.java:184-188 | a path starts with the empty path exactly when it is the empty path |
| Watchman.Classify | test/com/facebook/buck/util/WatchmanWatcherTest.java:65-150 | the definition of an entry's event kind: a false `exists` gives DELETE, else a true `new` gives CREATE, else MODIFY (see `Watchman.ClassifyTable`) |
| Watchman.IsExcluded | test/com/facebook/buck/util/WatchmanWatcherTest.java:173-191 | the definition of exclusion: the path starts with some excluded directory (see `Watchman.ExclusionIsSegmentwise`, `Watchman.ExcludingEmptyPath`) |
| Watchman.Survivors | test/com/facebook/buck/util/WatchmanWatcherTest.java:173-191 | the definition of the filter: the entries that are not excluded, in input order (see `Watchman.SurvivorsMembers`, `Watchman.SurvivorsAppend`) |
| Watchman.Translate | test/com/facebook/buck/util/WatchmanWatcherTest.java:153-216 | the definition of one batch: the overflow event alone, or one event per survivor (see `Watchman.TranslateShape`, `Watchman.OverflowAlone`) |
| Watchman.ClassifyTable | test/com/facebook/buck/util/WatchmanWatcherTest.java:65-150 | both directions: DELETE exactly when `exists` is false, CREATE exactly when it is not false and `new` is true, MODIFY otherwise; never OVERFLOW |
| Watchman.SurvivorsAppend | test/com/facebook/buck/util/WatchmanWatcherTest.java:173-191 | filtering distributes over concatenation, so survivors keep their input order |
| Watchman.SurvivorsMembers | test/com/facebook/buck/util/WatchmanWatcherTest.java:173-191 | an entry survives exactly when it is in the input and its path is not at or under an excluded directory |
| Watchman.SurvivorsNoExclusions | test/com/facebook/buck/util/WatchmanWatcherTest.java:218-224 | with no excluded directories every entry survives, unchanged and in order |
| Watchman.SurvivorsSnoc | test/com/facebook/buck/util/WatchmanWatcherTest.java:173-191 | filtering one more entry appends it exactly when its path is not excluded |
| Watchman.ExcludingEmptyPath | test/com/facebook/buck/util/WatchmanWatcherTest.java:184-188 | excluding the empty path drops exactly the entries whose path is empty |
| Watchman.ExclusionIsSegmentwise | test/com/facebook/buck/util/WatchmanWatcherTest.java:173-191 | `/foo/bar/baz` is under `/foo/bar`; `/foo/barbaz` is not |
| Watchman.TranslateShape | test/com/facebook/buck/util/WatchmanWatcherTest.java:153-216 | the batch is the single overflow event exactly when the survivors outnumber the threshold; otherwise it holds one event per survivor, in order, with that entry's kind and path |
| Watchman.OverflowAlone | test/com/facebook/buck/util/WatchmanWatcherTest.java:193-216 | an overflow event is never posted alongside per-file events, and an event has no path exactly when it is the overflow event |
| Watchman.OverflowBoundary | test/com/facebook/buck/util/WatchmanWatcherTest.java:193-216 | the comparison is strict: as many survivors as the threshold do not overflow, one more does |
| Watchman.TranslateEmpty | test/com/facebook/buck/util/WatchmanWatcherTest.java:48-62 | an empty `files` array posts nothing exactly when the threshold is not negative |
| Watchman.TranslateOnePerEntry | test/com/facebook/buck/util/WatchmanWatcherTest.java:153-171 | with no exclusions and a batch within the threshold, the i-th event is the i-th entry's kind and parsed path |
| Watchman.EventBus.Post | test/com/facebook/buck/util/WatchmanWatcherTest.java:74 | posting appends exactly that event to what the bus has received |
| Watchman.WatchmanWatcher.constructor | test/com/facebook/buck/util/WatchmanWatcherTest.java:226-236 | the watcher keeps its bus, its excluded directories and its threshold |
| Watchman.WatchmanWatcher.PostEvents | test/com/facebook/buck/util/WatchmanWatcherTest.java:59-60 | the bus receives exactly `Translate` of the entries, after what it already had |
| WatchmanScenarios.Run | test/com/facebook/buck/util/WatchmanWatcherTest.java:218-236 | a fresh bus and watcher receive exactly `Translate` of the entries |
| WatchmanScenarios.ParseFooBarBaz | test/com/facebook/buck/util/WatchmanWatcherTest.java:69 | `/foo/bar/baz` is the absolute path with names foo, bar, baz |
| WatchmanScenarios.ParseFooBarSlash | test/com/facebook/buck/util/WatchmanWatcherTest.java:187 | the trailing separator of `/foo/bar/` is dropped |
| WatchmanScenarios.WhenFilesListIsEmptyThenNoEventsAreGenerated | test/com/facebook/buck/util/WatchmanWatcherTest.java:48-62 | no event is posted |
| WatchmanScenarios.WhenNameThenModifyEventIsGenerated | test/com/facebook/buck/util/WatchmanWatcherTest.java:65-83 | exactly one event is posted, and it is ENTRY_MODIFY |
| WatchmanScenarios.WhenNewIsTrueThenCreateEventIsGenerated | test/com/facebook/buck/util/WatchmanWatcherTest.java:86-105 | exactly one event is posted, and it is ENTRY_CREATE |
| WatchmanScenarios.WhenExistsIsFalseThenDeleteEventIsGenerated | test/com/facebook/buck/util/WatchmanWatcherTest.java:108-127 | exactly one event is posted, and it is ENTRY_DELETE |
| WatchmanScenarios.WhenNewAndNotExistsThenDeleteEventIsGenerated | test/com/facebook/buck/util/WatchmanWatcherTest.java:130-150 | exactly one event is posted, and it is ENTRY_DELETE |
| WatchmanScenarios.WhenMultipleFilesThenMultipleEventsGenerated | test/com/facebook/buck/util/WatchmanWatcherTest.java:153-171 | exactly two events are posted, for the two paths, in order |
| WatchmanScenarios.WhenNameExcludedThenNoEventsGenerated | test/com/facebook/buck/util/WatchmanWatcherTest.java:173-191 | no event is posted |
| WatchmanScenarios.WhenTooManyChangesThenOverflowEventGenerated | test/com/facebook/buck/util/WatchmanWatcherTest.java:193-216 | exactly one event is posted, and it is OVERFLOW |
| NativeSteps.LastIndexOf | src/com/facebook/buck/cpp/AbstractNativeBuildable.java:116 | the result is -1 or a position holding the character, and no later position holds it |
| NativeSteps.NameWithoutExtension | src/com/facebook/buck/cpp/AbstractNativeBuildable.java:116 | the result is a prefix of the file name: the whole name when it has no dot, otherwise the part before the last dot |
| NativeSteps.NameWithoutExtensionOf | src/com/facebook/buck/cpp/AbstractNativeBuildable.java:116 | a name that is a stem, a dot and a dot-free extension loses exactly the dot and the extension |
| NativeSteps.NameWithoutExtensionExamples | src/com/facebook/buck/cpp/AbstractNativeBuildable.java:116 | `foo.cpp` becomes `foo`, `foo.tar.gz` becomes `foo.tar`, and `Makefile` stays as it is |
| NativeSteps.TargetDirShape | src/com/facebook/buck/cpp/AbstractNativeBuildable.java:106-112 | a source with no parent goes to `buck-out/gen`; any other source goes to `buck-out/gen/<its parent>` |
| NativeSteps.ObjectFileShape | src/com/facebook/buck/cpp/AbstractNativeBuildable.java:115-116 | the object file is the target directory plus the file name without its extension, plus `.o` |
| NativeSteps.SourcePath.Resolve | src/com/facebook/buck/rules/PathSourcePath.java:30-32 | the definition of `PathSourcePath.resolve`: the wrapped path, unchanged |
| NativeSteps.TargetDir | src/com/facebook/buck/cpp/AbstractNativeBuildable.java:106-112 | the definition of a source's object directory: its parent, or the empty path, resolved against GEN_PATH (see `NativeSteps.TargetDirShape`) |
| NativeSteps.ObjectFile | src/com/facebook/buck/cpp/AbstractNativeBuildable.java:115-116 | the definition of a source's object file (see `NativeSteps.ObjectFileShape`, `NativeSteps.ObjectFileParent`) |
| NativeSteps.ObjectFileParent | src/com/facebook/buck/cpp/AbstractNativeBuildable.java:112-116 | the object file's parent is the source's target directory |
| NativeSteps.SourceStepsMkdirsFresh | src/com/facebook/buck/cpp/AbstractNativeBuildable.java:83-90 | the source loop never makes a directory that was already created |
| NativeSteps.SourceStepsMkdirsDistinct | src/com/facebook/buck/cpp/AbstractNativeBuildable.java:102-125 | the source loop never makes the same directory twice |
| NativeSteps.SourceStepsDirReady | src/com/facebook/buck/cpp/AbstractNativeBuildable.java:110-123 | in the source loop, every compile step's output directory already existed or was made earlier |
| NativeSteps.SourceStepsCompiles | src/com/facebook/buck/cpp/AbstractNativeBuildable.java:117-123 | the source loop's compile steps are, in order, exactly one compile per source |
| NativeSteps.SourceParentRelative | src/com/facebook/buck/cpp/AbstractNativeBuildable.java:106-112 | a relative source's directory is relative, and its target directory is GEN_PATH followed by that directory's names |
| NativeSteps.ObjectFilesOfDistinctDirs | src/com/facebook/buck/cpp/AbstractNativeBuildable.java:110-116 | relative sources in different directories never share an object file |
| NativeSteps.ObjectFileOneDir | src/com/facebook/buck/cpp/AbstractNativeBuildable.java:106-116 | a source `d/f` is compiled into `buck-out/gen/d/<f without extension>.o` |
| NativeSteps.ObjectFileSameStem | src/com/facebook/buck/cpp/AbstractNativeBuildable.java:115-116 | `lib/foo.c` and `lib/foo.cpp` are both compiled into `buck-out/gen/lib/foo.o` |
| NativeSteps.SourceSteps | src/com/facebook/buck/cpp/AbstractNativeBuildable.java:102-125 | the definition of the source loop's steps, given the directories already made (see the `SourceSteps…` lemmas) |
| NativeSteps.SourceStepsMkdirTargets | src/com/facebook/buck/cpp/AbstractNativeBuildable.java:110-113 | every directory the source loop makes is the target directory of one of the sources |
| NativeSteps.SourceStepsKinds | src/com/facebook/buck/cpp/AbstractNativeBuildable.java:102-125 | the source loop adds only `mkdir` and compile steps |
| NativeSteps.CompilesAppend | src/com/facebook/buck/cpp/AbstractNativeBuildable.java:117-123 | the compile steps of concatenated step lists are the concatenation of their compile steps |
| NativeSteps.SourceObjectsMembers | src/com/facebook/buck/cpp/AbstractNativeBuildable.java:124 | the sources' object file set holds exactly the object file of each source |
| NativeSteps.LibraryOutputsMembers | src/com/facebook/buck/cpp/AbstractNativeBuildable.java:127-132 | the deps contribute exactly the output files of the deps that are C++ libraries |
| NativeSteps.BuildStepsFailure | src/com/facebook/buck/cpp/AbstractNativeBuildable.java:103-105 | both directions: the plan fails exactly when some source resolves to an absolute path, and succeeds exactly when none does |
| NativeSteps.BuildStepsLayout | src/com/facebook/buck/cpp/AbstractNativeBuildable.java:96-136 | a successful plan starts with the `mkdir` of the output's parent, then exactly `HeadSteps(b)`: per source, its `mkdir` if needed, then its compile (`SourceSteps`), all of them `mkdir` or compile steps; it ends with the final steps over the object files. `PlanMkdirs`, `NoDuplicateMkdir`, `MkdirBeforeCompile` and `OneCompilePerSource` state properties of that head |
| NativeSteps.NoDuplicateMkdir | src/com/facebook/buck/cpp/AbstractNativeBuildable.java:83-113 | no directory is made twice before the final steps, the output's parent included |
| NativeSteps.BuildSteps | src/com/facebook/buck/cpp/AbstractNativeBuildable.java:92-137 | the definition of the plan, or the failure on an absolute source (see `NativeSteps.BuildStepsFailure`, `NativeSteps.BuildStepsLayout`) |
| NativeSteps.PlanMkdirs | src/com/facebook/buck/cpp/AbstractNativeBuildable.java:100-113 | the plan makes no directories other than the output's parent and the sources' target directories |
| NativeSteps.MkdirBeforeCompile | src/com/facebook/buck/cpp/AbstractNativeBuildable.java:100-123 | every compile step comes after a `mkdir` of the directory its object file goes into |
| NativeSteps.OneCompilePerSource | src/com/facebook/buck/cpp/AbstractNativeBuildable.java:102-123 | the i-th compile step belongs to the i-th source: the configured compiler, no linking, that source as its sole input, its object file as output, the project root added to the include paths, and no other include paths |
| NativeSteps.ObjectFilesExact | src/com/facebook/buck/cpp/AbstractNativeBuildable.java:124-134 | the final steps receive exactly the sources' object files and the C++-library deps' outputs |
| NativeBuildable.PathSet.Add | src/com/facebook/buck/cpp/AbstractNativeBuildable.java:87 | `add` returns true exactly when the path was new, and the path is in the set afterwards |
| NativeBuildable.StepList.Add | src/com/facebook/buck/cpp/AbstractNativeBuildable.java:88 | appends exactly that step |
| NativeBuildable.StepList.AddAll | src/com/facebook/buck/cpp/AbstractNativeBuildable.java:134 | appends exactly those steps, in order |
| NativeBuildable.AddMkdirStepIfNeeded | src/com/facebook/buck/cpp/AbstractNativeBuildable.java:83-90 | the directory is created afterwards; a `mkdir` step is appended exactly when the directory was not created before |
| NativeBuildable.AddSourceSteps | src/com/facebook/buck/cpp/AbstractNativeBuildable.java:103-124 | one source's iteration: records its target directory, appends its `mkdir` if needed and its compile step, and adds its object file |
| NativeBuildable.AddLibraryOutputs | src/com/facebook/buck/cpp/AbstractNativeBuildable.java:127-132 | adds exactly the output files of the C++-library deps to the object files |
| NativeBuildable.GetBuildSteps | src/com/facebook/buck/cpp/AbstractNativeBuildable.java:92-137 | returns exactly `BuildSteps`: the planned step list, or the failure for an absolute source |

## Left out

- The `WatchmanWatcher` implementation file is not part of this model. The watcher is modelled from its test, `WatchmanWatcherTest`.
- Watchman.Translate: the model removes excluded entries before it counts entries against the overflow threshold. No test combines an exclusion with a threshold crossing, so the order of these two steps is a design choice and is not fixed by the tests.
- Running the `watchman` process, writing the query to it and decoding its JSON output are not modelled. The model starts from the decoded `files` entries, passed in as a parameter.
- The `version`, `clock` and `is_fresh_instance` fields of the answer are not modelled, because no test acts on them.
- EasyMock's strict mocks are modelled by `EventBus`, which only records the events posted to it, in order.
- Paths.Parse: it is total. `File.toPath()` throws `InvalidPathException` for a name holding NUL or a character the platform encoding cannot map; the model does not. Only the Unix reading of a pathname is modelled. Other separators are not, and neither is the path's string form beyond `Format`.
- NativeBuildable.GetBuildSteps: requires that the output file has a parent directory. `getPathToOutputFile` always puts the output under `buck-out/bin`, and `getBinPath` is not part of this model.
- `getPathToOutputFile` and `getBinPath`: the output path is a field of the buildable instead.
- `getCompiler` and `getFinalBuildSteps`: these are abstract in the source, so they are fields of the buildable. The final steps are a function of the object files and the output path.
- Buildables other than C++ libraries are all shown as `OtherBuildable`.
- `BuckConstant.GEN_PATH` is not part of this model. It is taken to be `buck-out/gen`.
- The object-file set is a `set` of paths. The sorted order of `ImmutableSortedSet` is not modelled, because `getBuildSteps` only hands the set on.
- The order of `srcs` and `deps` is taken as given: the sorted-set order of `SourcePath` and `BuildRule` is not part of this model.
- The model does not run any steps. It also leaves out `MkdirStep` and `CompilerStep` beyond the fields the plan sets.
- `headers`, `getInputsToCompareToOutput` and `appendDetailsToRuleKey` are not modelled, because they do not affect the step plan.
- `AndroidLibraryGraphEnhancer` is not modelled.
- NativeBuildable.AddSourceSteps, NativeBuildable.AddLibraryOutputs: in the source these are the bodies of the two loops in `getBuildSteps`, written inline. Here they are separate methods.
- NativeBuildable.AddSourceSteps: requires a relative source. `getBuildSteps` checks this before it calls the method, as the source does.
