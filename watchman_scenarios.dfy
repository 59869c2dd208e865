/**
 * The eight scenarios of WatchmanWatcherTest, each run against a fresh bus and
 * watcher; each method returns what the bus received and promises what the
 * test asserts of it. `createWatcher`'s defaults are no excluded directories
 * and a threshold of 200.
 */
module WatchmanScenarios {
  import opened Wrappers
  import opened Paths
  import opened Watchman

  const DefaultOverflow: int := 200

  /** Builds a bus and a watcher, posts the events for `files`, and returns what the bus received. */
  method Run(files: seq<Entry>, excludeDirectories: set<Path>, overflow: int) returns (posted: seq<WatchEvent>)
    ensures posted == Translate(WatcherConfig(excludeDirectories, overflow), files)
  {
    var bus := new EventBus();
    var watcher := new WatchmanWatcher(bus, excludeDirectories, overflow);
    watcher.PostEvents(files);
    posted := bus.posted;
  }

  lemma ParseFooBarBaz()
    ensures Parse("/foo/bar/baz") == Path(true, ["foo", "bar", "baz"])
  {
    var p := Path(true, ["foo", "bar", "baz"]);
    assert IsName("foo") && IsName("bar") && IsName("baz");
    ParseFormat(p);
    assert Format(p) == "/foo/bar/baz";
  }

  lemma ParseFooBarSlash()
    ensures Parse("/foo/bar/") == Path(true, ["foo", "bar"])
  {
    var ns := ["foo", "bar"];
    assert IsName("foo") && IsName("bar");
    NamesOfJoin(ns, "/");
    assert Names("/") == [] by {
      assert "/"[1..] == "";
    }
    assert Join(ns) + "/" == "foo/bar/";
    assert "/foo/bar/"[1..] == "foo/bar/";
  }

  /** `files: []` posts nothing. */
  method WhenFilesListIsEmptyThenNoEventsAreGenerated() returns (posted: seq<WatchEvent>)
    ensures posted == []
  {
    posted := Run([], {}, DefaultOverflow);
  }

  /** An entry with only `name` posts one ENTRY_MODIFY. */
  method WhenNameThenModifyEventIsGenerated() returns (posted: seq<WatchEvent>)
    ensures |posted| == 1 && posted[0].kind == Modify
  {
    posted := Run([Entry("/foo/bar/baz", None, None)], {}, DefaultOverflow);
  }

  /** `new: true` posts one ENTRY_CREATE. */
  method WhenNewIsTrueThenCreateEventIsGenerated() returns (posted: seq<WatchEvent>)
    ensures |posted| == 1 && posted[0].kind == Create
  {
    posted := Run([Entry("/foo/bar/baz", Some(true), None)], {}, DefaultOverflow);
  }

  /** `exists: false` posts one ENTRY_DELETE. */
  method WhenExistsIsFalseThenDeleteEventIsGenerated() returns (posted: seq<WatchEvent>)
    ensures |posted| == 1 && posted[0].kind == Delete
  {
    posted := Run([Entry("/foo/bar/baz", None, Some(false))], {}, DefaultOverflow);
  }

  /** `new: true` with `exists: false` posts one ENTRY_DELETE. */
  method WhenNewAndNotExistsThenDeleteEventIsGenerated() returns (posted: seq<WatchEvent>)
    ensures |posted| == 1 && posted[0].kind == Delete
  {
    posted := Run([Entry("/foo/bar/baz", Some(true), Some(false))], {}, DefaultOverflow);
  }

  /** Two entries within the threshold post two events, one per entry, in order. */
  method WhenMultipleFilesThenMultipleEventsGenerated() returns (posted: seq<WatchEvent>)
    ensures |posted| == 2
    ensures posted[0].context == Some(Parse("/foo/bar/baz")) && posted[1].context == Some(Parse("/foo/bar/boz"))
  {
    var files := [Entry("/foo/bar/baz", None, None), Entry("/foo/bar/boz", None, None)];
    posted := Run(files, {}, DefaultOverflow);
    TranslateOnePerEntry(WatcherConfig({}, DefaultOverflow), files);
  }

  /** An entry under the excluded `/foo/bar/` posts nothing. */
  method WhenNameExcludedThenNoEventsGenerated() returns (posted: seq<WatchEvent>)
    ensures posted == []
  {
    var excluded := {Parse("/foo/bar/")};
    var files := [Entry("/foo/bar/baz", None, None)];
    posted := Run(files, excluded, DefaultOverflow);
    ParseFooBarBaz();
    ParseFooBarSlash();
    ghost var config := WatcherConfig(excluded, DefaultOverflow);
    assert IsExcluded(EntryPath(files[0]), excluded) by {
      assert Parse("/foo/bar/baz").names[..2] == Parse("/foo/bar/").names;
    }
    assert files == files[..0] + [files[0]];
    assert Survivors(config, files) == [];
  }

  /** One entry against a threshold of −1 posts a single OVERFLOW and nothing else. */
  method WhenTooManyChangesThenOverflowEventGenerated() returns (posted: seq<WatchEvent>)
    ensures |posted| == 1 && posted[0].kind == Overflow
  {
    var files := [Entry("/foo/bar/baz", None, None)];
    posted := Run(files, {}, -1);
    SurvivorsNoExclusions(WatcherConfig({}, -1), files);
  }
}
