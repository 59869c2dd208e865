/**
 * The change-event translation of Buck's WatchmanWatcher: the `files` array of
 * a Watchman query response becomes java.nio watch events posted one by one to
 * an event bus.
 */
module Watchman {
  import opened Wrappers
  import opened Paths

  /** One decoded entry of the `files` array (`name`, `new`, `exists`); a flag the daemon left out is `None`. */
  datatype Entry = Entry(name: string, isNew: Option<bool>, fileExists: Option<bool>)

  /** The four java.nio.file.StandardWatchEventKinds the watcher posts. */
  datatype Kind = Create | Modify | Delete | Overflow

  /** A java.nio WatchEvent: its kind and its context, the changed path (none for OVERFLOW). */
  datatype WatchEvent = WatchEvent(kind: Kind, context: Option<Path>)

  /** What the watcher is constructed with, apart from the process and the bus. */
  datatype WatcherConfig = WatcherConfig(excludeDirectories: set<Path>, overflow: int)

  /** An absent `new` reads as false. */
  function IsNew(e: Entry): bool {
    e.isNew.GetOr(false)
  }

  /** An absent `exists` reads as true. */
  function Exists(e: Entry): bool {
    e.fileExists.GetOr(true)
  }

  /** The event kind of one entry: non-existence dominates newness. */
  function Classify(e: Entry): Kind {
    if !Exists(e) then Delete
    else if IsNew(e) then Create
    else Modify
  }

  /** The path an entry names. */
  function EntryPath(e: Entry): Path {
    Parse(e.name)
  }

  /** Whether a path lies at or under one of the excluded directories, name element by name element. */
  predicate IsExcluded(p: Path, excluded: set<Path>) {
    exists d :: d in excluded && StartsWith(p, d)
  }

  /** The entries that are not excluded, in their original order. */
  function Survivors(config: WatcherConfig, es: seq<Entry>): seq<Entry>
    decreases |es|
  {
    if es == [] then []
    else
      var last := es[|es| - 1];
      Survivors(config, es[..|es| - 1])
        + (if IsExcluded(EntryPath(last), config.excludeDirectories) then [] else [last])
  }

  /** The event one surviving entry becomes. */
  function ToEvent(e: Entry): WatchEvent {
    WatchEvent(Classify(e), Some(EntryPath(e)))
  }

  const OverflowEvent: WatchEvent := WatchEvent(Overflow, None)

  /** The events `postEvents` posts for one response, in posting order. */
  function Translate(config: WatcherConfig, es: seq<Entry>): seq<WatchEvent> {
    var s := Survivors(config, es);
    if |s| > config.overflow then [OverflowEvent]
    else seq(|s|, i requires 0 <= i < |s| => ToEvent(s[i]))
  }

  // ---------------------------------------------------------------------------
  // Classification

  /** The classification table, both ways: each kind exactly when its flags say so. */
  lemma ClassifyTable(e: Entry)
    ensures Classify(e) == Delete <==> e.fileExists == Some(false)
    ensures Classify(e) == Create <==> e.fileExists != Some(false) && e.isNew == Some(true)
    ensures Classify(e) == Modify <==> e.fileExists != Some(false) && e.isNew != Some(true)
    ensures Classify(e) != Overflow
  {
  }

  // ---------------------------------------------------------------------------
  // Exclusion

  /** Filtering distributes over concatenation: it keeps the order of the input. */
  lemma {:induction false} SurvivorsAppend(config: WatcherConfig, a: seq<Entry>, b: seq<Entry>)
    ensures Survivors(config, a + b) == Survivors(config, a) + Survivors(config, b)
    decreases |b|
  {
    if b == [] {
      assert a + b == a;
    } else {
      var b' := b[..|b| - 1];
      assert (a + b)[..|a + b| - 1] == a + b';
      assert (a + b)[|a + b| - 1] == b[|b| - 1];
      SurvivorsAppend(config, a, b');
    }
  }

  /** An entry survives exactly when it is in the input and its path is not excluded. */
  lemma {:induction false} SurvivorsMembers(config: WatcherConfig, es: seq<Entry>)
    ensures forall e :: e in Survivors(config, es) <==>
      e in es && !IsExcluded(EntryPath(e), config.excludeDirectories)
    decreases |es|
  {
    if es != [] {
      var init := es[..|es| - 1];
      SurvivorsMembers(config, init);
      assert es == init + [es[|es| - 1]];
    }
  }

  /** Filtering one more entry of a prefix. */
  lemma SurvivorsSnoc(config: WatcherConfig, es: seq<Entry>, i: nat)
    requires i < |es|
    ensures Survivors(config, es[..i + 1]) == Survivors(config, es[..i])
      + (if IsExcluded(EntryPath(es[i]), config.excludeDirectories) then [] else [es[i]])
  {
    assert es[..i + 1][..i] == es[..i];
  }

  /** With no excluded directories every entry survives. */
  lemma {:induction false} SurvivorsNoExclusions(config: WatcherConfig, es: seq<Entry>)
    requires config.excludeDirectories == {}
    ensures Survivors(config, es) == es
    decreases |es|
  {
    if es != [] {
      var last := es[|es| - 1];
      assert !IsExcluded(EntryPath(last), config.excludeDirectories);
      assert Survivors(config, es) == Survivors(config, es[..|es| - 1]) + [last];
      SurvivorsNoExclusions(config, es[..|es| - 1]);
      assert es == es[..|es| - 1] + [last];
    }
  }

  /** Excluding the empty path drops only entries whose path is empty, not every relative entry. */
  lemma ExcludingEmptyPath(config: WatcherConfig, es: seq<Entry>)
    requires config.excludeDirectories == {EmptyPath}
    ensures forall e :: e in Survivors(config, es) <==> e in es && EntryPath(e) != EmptyPath
  {
    SurvivorsMembers(config, es);
    forall e ensures IsExcluded(EntryPath(e), config.excludeDirectories) <==> EntryPath(e) == EmptyPath {
      StartsWithEmpty(EntryPath(e));
    }
  }

  /** Exclusion compares whole name elements, so `/foo/barbaz` is not under `/foo/bar`. */
  lemma ExclusionIsSegmentwise()
    ensures !IsExcluded(Path(true, ["foo", "barbaz"]), {Path(true, ["foo", "bar"])})
    ensures IsExcluded(Path(true, ["foo", "bar", "baz"]), {Path(true, ["foo", "bar"])})
  {
    var d := Path(true, ["foo", "bar"]);
    assert Path(true, ["foo", "bar", "baz"]).names[..2] == d.names;
    assert Path(true, ["foo", "barbaz"]).names[..2] != d.names by {
      assert Path(true, ["foo", "barbaz"]).names[..2][1] == "barbaz";
    }
  }

  // ---------------------------------------------------------------------------
  // Translation

  /**
   * The shape of every batch: either the single overflow event, exactly when the
   * surviving entries outnumber the threshold, or one event per surviving entry,
   * in order, carrying the entry's kind and path.
   */
  lemma TranslateShape(config: WatcherConfig, es: seq<Entry>)
    ensures var r := Translate(config, es); var s := Survivors(config, es);
      && (r == [OverflowEvent] <==> |s| > config.overflow)
      && (|s| <= config.overflow ==>
            |r| == |s| && forall i :: 0 <= i < |s| ==> r[i] == WatchEvent(Classify(s[i]), Some(EntryPath(s[i]))))
  {
    var s := Survivors(config, es);
    if 0 < |s| <= config.overflow {
      var r := Translate(config, es);
      assert r[0] == ToEvent(s[0]);
      ClassifyTable(s[0]);
      assert r[0] != OverflowEvent;
    }
  }

  /** The overflow event never comes with per-file events, and only it lacks a path. */
  lemma OverflowAlone(config: WatcherConfig, es: seq<Entry>)
    ensures var r := Translate(config, es);
      && (OverflowEvent in r ==> r == [OverflowEvent])
      && (forall i :: 0 <= i < |r| ==> (r[i].kind == Overflow <==> r[i].context == None))
  {
    var r := Translate(config, es);
    var s := Survivors(config, es);
    if |s| <= config.overflow {
      forall i | 0 <= i < |r| ensures r[i].kind != Overflow && r[i].context != None {
        ClassifyTable(s[i]);
      }
    }
  }

  /** The threshold is strict: as many survivors as the threshold is fine, one more overflows. */
  lemma OverflowBoundary(config: WatcherConfig, es: seq<Entry>)
    ensures |Survivors(config, es)| == config.overflow ==> Translate(config, es) != [OverflowEvent]
    ensures |Survivors(config, es)| == config.overflow + 1 ==> Translate(config, es) == [OverflowEvent]
  {
    TranslateShape(config, es);
  }

  /** An empty `files` array posts nothing, unless the threshold is negative, when `0 > threshold`. */
  lemma TranslateEmpty(config: WatcherConfig)
    ensures Translate(config, []) == [] <==> config.overflow >= 0
  {
  }

  /** With no excluded directories and a batch within the threshold, each entry gives its own event, in order. */
  lemma TranslateOnePerEntry(config: WatcherConfig, es: seq<Entry>)
    requires config.excludeDirectories == {}
    requires |es| <= config.overflow
    ensures |Translate(config, es)| == |es|
    ensures forall i :: 0 <= i < |es| ==> Translate(config, es)[i] == WatchEvent(Classify(es[i]), Some(Parse(es[i].name)))
  {
    SurvivorsNoExclusions(config, es);
  }

  // ---------------------------------------------------------------------------
  // The event bus and the watcher

  /** The Guava EventBus, seen only as the sequence of events posted to it. */
  class EventBus {
    var posted: seq<WatchEvent>

    constructor ()
      ensures posted == []
    {
      posted := [];
    }

    method Post(e: WatchEvent)
      modifies this
      ensures posted == old(posted) + [e]
    {
      posted := posted + [e];
    }
  }

  class WatchmanWatcher {
    const eventBus: EventBus
    const config: WatcherConfig

    constructor (eventBus: EventBus, excludeDirectories: set<Path>, overflow: int)
      ensures this.eventBus == eventBus
      ensures config == WatcherConfig(excludeDirectories, overflow)
    {
      this.eventBus := eventBus;
      this.config := WatcherConfig(excludeDirectories, overflow);
    }

    /**
     * Posts the events for one response's `files` array: the surviving entries
     * are counted, then either one overflow event or one event per entry is posted.
     */
    method PostEvents(files: seq<Entry>)
      modifies eventBus
      ensures eventBus.posted == old(eventBus.posted) + Translate(config, files)
    {
      var survivors: seq<Entry> := [];
      for i := 0 to |files|
        modifies {}
        invariant survivors == Survivors(config, files[..i])
      {
        SurvivorsSnoc(config, files, i);
        if !IsExcluded(EntryPath(files[i]), config.excludeDirectories) {
          survivors := survivors + [files[i]];
        }
      }
      assert files[..|files|] == files;
      if |survivors| > config.overflow {
        eventBus.Post(OverflowEvent);
      } else {
        ghost var before := eventBus.posted;
        for i := 0 to |survivors|
          invariant eventBus.posted == before + seq(i, j requires 0 <= j < i => ToEvent(survivors[j]))
        {
          eventBus.Post(ToEvent(survivors[i]));
        }
      }
    }
  }
}
