/** The change watcher of watcher.go: which directories are registered with
    the operating system's notification service, and how change events are
    gated and coalesced into one rebuild callback.

    The file system is an oracle: `stat` maps a path that os.Stat can read
    to whether it is a directory (a path absent from it fails to stat), and
    a tree walk (filepath.WalkDir) is the sequence of entries it visits.
    Real time and the goroutines are gone: the debounce timer is one slot
    whose firing and whose callback's return are separate actions. */
module Watcher {
  import opened Wrappers
  import opened Strings
  import opened Config
  import Classifier

  /** One entry visited by a tree walk. */
  datatype DirEntry = DirEntry(path: string, isDir: bool)

  /** What filepath.WalkDir hands the callback of getNestedPaths.  A root
      that os.Lstat can read is walked: the entries visited, in walk order,
      with the paths filepath.Join builds (a directory whose listing fails
      is visited a second time, so it appears twice; a root that is a file
      or a symbolic link, even a dangling one, is a single non-directory
      entry).  A root that os.Lstat cannot read is visited once, with a nil
      entry. */
  datatype Walk = Walked(entries: seq<DirEntry>) | Unreadable(root: string)

  /** A change notification: the changed path and whether it reports a
      creation. */
  datatype Event = Event(name: string, create: bool)

  /** The state of the debounce timer held in the slot: counting down, or
      already fired (its callback is running). */
  datatype TimerState = Armed | Fired

  /** The one key of the timer slot. */
  const FileModified: string := "fileModified"

  // ---------------------------------------------------------------------
  // Walking: getNestedPaths

  /** The directories of a walk that getNestedPaths keeps: every entry that
      is a directory and whose full path holds no '.', in walk order. */
  function NestedDirs(entries: seq<DirEntry>): (dirs: seq<string>)
    ensures |dirs| <= |entries|
    ensures forall k :: 0 <= k < |dirs| ==> '.' !in dirs[k]
  {
    if entries == [] then []
    else
      var rest := NestedDirs(entries[1..]);
      if '.' !in entries[0].path && entries[0].isDir then [entries[0].path] + rest else rest
  }

  /** Filtering a walk in two parts is filtering each part; with the
      single-entry case this fixes NestedDirs completely, order included. */
  lemma {:induction false} NestedDirsAppend(a: seq<DirEntry>, b: seq<DirEntry>)
    ensures NestedDirs(a + b) == NestedDirs(a) + NestedDirs(b)
  {
    if a != [] {
      assert (a + b)[1..] == a[1..] + b;
      NestedDirsAppend(a[1..], b);
    } else {
      assert a + b == b;
    }
  }

  /** A path is kept exactly when some walked entry with that path is a
      directory whose path holds no '.'. */
  lemma {:induction false} NestedDirsMembers(entries: seq<DirEntry>, p: string)
    ensures p in NestedDirs(entries) <==>
              exists k :: 0 <= k < |entries| && entries[k].path == p && entries[k].isDir && '.' !in p
  {
    if entries != [] {
      NestedDirsMembers(entries[1..], p);
      assert forall k :: 1 <= k < |entries| ==> entries[k] == entries[1..][k - 1];
      if p in NestedDirs(entries[1..]) {
        var k :| 0 <= k < |entries[1..]| && entries[1..][k].path == p && entries[1..][k].isDir && '.' !in p;
        assert entries[k + 1] == entries[1..][k];
      }
    }
  }

  /** The '.' filter looks at the whole path: when every walked path begins
      with the root and the root holds a '.' (one that cleaning the path
      does not remove, as in "/home/u/my.app"), nothing below it is kept. */
  lemma {:induction false} DottedRootHidesTree(entries: seq<DirEntry>, root: string)
    requires '.' in root
    requires forall k :: 0 <= k < |entries| ==> HasPrefix(entries[k].path, root)
    ensures NestedDirs(entries) == []
  {
    if entries != [] {
      var p := entries[0].path;
      var i :| 0 <= i < |root| && root[i] == '.';
      assert p[..|root|] == root;
      assert p[i] == '.';
      assert forall k :: 0 <= k < |entries[1..]| ==> entries[1..][k] == entries[k + 1];
      DottedRootHidesTree(entries[1..], root);
    }
  }

  /** What getNestedPaths returns for a walk.  Its callback never reports
      an error, so the walk never fails; but for a root that os.Lstat
      cannot read it asks a nil entry whether it is a directory, which panics
      (None) unless the root's path holds a '.'. */
  function NestedPaths(walk: Walk): (dirs: Option<seq<string>>)
    ensures dirs.None? <==> walk.Unreadable? && '.' !in walk.root
    ensures dirs.Some? ==> forall k :: 0 <= k < |dirs.value| ==> '.' !in dirs.value[k]
  {
    match walk
    case Walked(entries) => Some(NestedDirs(entries))
    case Unreadable(root) => if '.' in root then Some([]) else None
  }

  /** getNestedPaths: collects the kept directories of a walk. */
  method GetNestedPaths(walk: Walk) returns (dirs: Option<seq<string>>)
    ensures dirs == NestedPaths(walk)
  {
    if walk.Unreadable? {
      if '.' in walk.root {
        return Some([]);
      }
      return None;
    }
    var found := [];
    var i := 0;
    while i < |walk.entries|
      invariant 0 <= i <= |walk.entries|
      invariant found == NestedDirs(walk.entries[..i])
    {
      var entry := walk.entries[i];
      NestedDirsAppend(walk.entries[..i], [entry]);
      assert walk.entries[..i + 1] == walk.entries[..i] + [entry];
      if '.' !in entry.path && entry.isDir {
        found := found + [entry.path];
      }
      i := i + 1;
    }
    assert walk.entries[..i] == walk.entries;
    return Some(found);
  }

  // ---------------------------------------------------------------------
  // The initial watch list: newWatcher

  /** The directories found under each included directory, in list order;
      nothing when one of those walks panics. */
  function IncludeDirPaths(includeDirs: seq<string>, walk: string -> Walk): (dirs: Option<seq<string>>)
    ensures dirs.Some? ==> forall p :: p in dirs.value ==> '.' !in p
  {
    if includeDirs == [] then Some([])
    else
      var init := IncludeDirPaths(includeDirs[..|includeDirs| - 1], walk);
      var last := NestedPaths(walk(includeDirs[|includeDirs| - 1]));
      if init.None? || last.None? then None else Some(init.value + last.value)
  }

  /** The paths a new watcher registers: the directories under the project
      path, then those under each included directory, then the included
      files themselves; nothing when one of the walks panics.  The included
      files always end the list. */
  function WatchPaths(c: Config, walk: string -> Walk): (paths: Option<seq<string>>)
    ensures paths.Some? ==> |c.includeFiles| <= |paths.value|
    ensures paths.Some? ==> paths.value[|paths.value| - |c.includeFiles|..] == c.includeFiles
  {
    var root := NestedPaths(walk(c.path));
    var included := IncludeDirPaths(c.includeDirs, walk);
    if root.None? || included.None? then None
    else
      var all := root.value + included.value + c.includeFiles;
      assert all[|all| - |c.includeFiles|..] == c.includeFiles;
      Some(all)
  }

  /** The include-directory part exists exactly when no included
      directory's walk panics, and then holds exactly the kept directories
      of those walks. */
  lemma {:induction false} IncludeDirPathsMembers(includeDirs: seq<string>, walk: string -> Walk, p: string)
    ensures IncludeDirPaths(includeDirs, walk).Some? <==>
              forall k :: 0 <= k < |includeDirs| ==> NestedPaths(walk(includeDirs[k])).Some?
    ensures IncludeDirPaths(includeDirs, walk).Some? ==>
              (p in IncludeDirPaths(includeDirs, walk).value <==>
                 exists k :: 0 <= k < |includeDirs| && NestedPaths(walk(includeDirs[k])).Some?
                             && p in NestedPaths(walk(includeDirs[k])).value)
  {
    if includeDirs != [] {
      var init := includeDirs[..|includeDirs| - 1];
      IncludeDirPathsMembers(init, walk, p);
      assert forall k :: 0 <= k < |init| ==> init[k] == includeDirs[k];
    }
  }

  /** A new watcher's list exists exactly when neither the walk of the
      project path nor that of any included directory panics; a path is
      then on it exactly when it is a kept directory under the project
      path or under an included directory, or is an included file. */
  lemma WatchPathsMembers(c: Config, walk: string -> Walk, p: string)
    ensures WatchPaths(c, walk).None? <==>
              NestedPaths(walk(c.path)).None?
              || exists k :: 0 <= k < |c.includeDirs| && NestedPaths(walk(c.includeDirs[k])).None?
    ensures WatchPaths(c, walk).Some? ==>
              (p in WatchPaths(c, walk).value <==>
                 p in NestedPaths(walk(c.path)).value
                 || (exists k :: 0 <= k < |c.includeDirs| && NestedPaths(walk(c.includeDirs[k])).Some?
                                 && p in NestedPaths(walk(c.includeDirs[k])).value)
                 || p in c.includeFiles)
  {
    IncludeDirPathsMembers(c.includeDirs, walk, p);
  }

  // ---------------------------------------------------------------------
  // Registering directories: watchDir

  /** filepath.Dir for a clean path: the text before the last '/', "/" when
      that is the root, "." when there is no '/'. */
  function ParentDir(p: string): (parent: string)
    ensures '/' !in p ==> parent == "."
    ensures '/' in p ==> HasPrefix(p, parent)
  {
    var name := LastField(p, '/');
    LastFieldSuffix(p, '/');
    FirstField(p, '/');
    if |name| == |p| then "."
    else if |name| + 1 == |p| then
      assert p[..1] == "/";
      "/"
    else p[..|p| - |name| - 1]
  }

  /** Below the root, a path is its parent directory, a '/' and its file
      name. */
  lemma ParentDirJoin(p: string)
    requires |LastField(p, '/')| + 1 < |p|
    ensures ParentDir(p) + "/" + LastField(p, '/') == p
  {
    LastFieldSuffix(p, '/');
  }

  /** The directory that registering `path` watches: the path itself when
      it is a directory, its parent otherwise. */
  function WatchTarget(path: string, isDir: bool): (target: string)
    ensures isDir ==> target == path
    ensures !isDir && '/' !in path ==> target == "."
    ensures !isDir && '/' in path ==> HasPrefix(path, target)
  {
    if isDir then path else ParentDir(path)
  }

  /** The watch list after registering `path`: the old list, possibly with
      one directory appended. */
  function AfterWatchDir(watching: seq<string>, path: string, stat: map<string, bool>): (after: seq<string>)
    ensures |watching| <= |after| <= |watching| + 1
    ensures after[..|watching|] == watching
  {
    if path !in stat then watching
    else if !stat[path] && ParentDir(path) in watching then watching
    else watching + [WatchTarget(path, stat[path])]
  }

  /** The watch list after registering each of `paths` in turn.
      Registration only appends, at most one entry per path. */
  function RegisterAll(watching: seq<string>, paths: seq<string>, stat: map<string, bool>): (after: seq<string>)
    ensures |watching| <= |after| <= |watching| + |paths|
    ensures after[..|watching|] == watching
  {
    if paths == [] then watching
    else
      var before := RegisterAll(watching, paths[..|paths| - 1], stat);
      var after := AfterWatchDir(before, paths[|paths| - 1], stat);
      assert after[..|watching|] == after[..|before|][..|watching|];
      after
  }

  /** Registering a file twice adds its parent at most once. */
  lemma FileRegisteredOnce(watching: seq<string>, path: string, stat: map<string, bool>)
    requires path in stat && !stat[path]
    ensures AfterWatchDir(AfterWatchDir(watching, path, stat), path, stat) == AfterWatchDir(watching, path, stat)
  {
  }

  /** A directory is appended every time it is registered, so registering
      it twice lists it twice. */
  lemma DirectoryRegisteredTwice(watching: seq<string>, path: string, stat: map<string, bool>)
    requires path in stat && stat[path]
    ensures AfterWatchDir(AfterWatchDir(watching, path, stat), path, stat) == watching + [path, path]
  {
  }

  /** After registration, the directory of every path that could be
      stat'ed is watched: the path itself or its parent. */
  lemma {:induction false} RegisterAllCovers(watching: seq<string>, paths: seq<string>, stat: map<string, bool>, k: nat)
    requires k < |paths| && paths[k] in stat
    ensures WatchTarget(paths[k], stat[paths[k]]) in RegisterAll(watching, paths, stat)
  {
    var init := paths[..|paths| - 1];
    if k < |paths| - 1 {
      assert init[k] == paths[k];
      RegisterAllCovers(watching, init, stat, k);
    }
  }

  /** A sequence without repeated elements. */
  predicate NoDuplicates(s: seq<string>) {
    forall i, j :: 0 <= i < j < |s| ==> s[i] != s[j]
  }

  /** Registering only files never repeats a directory: a file's parent is
      appended only when it is not yet watched. */
  lemma {:induction false} RegisterFilesNoDuplicates(watching: seq<string>, paths: seq<string>, stat: map<string, bool>)
    requires NoDuplicates(watching)
    requires forall k :: 0 <= k < |paths| && paths[k] in stat ==> !stat[paths[k]]
    ensures NoDuplicates(RegisterAll(watching, paths, stat))
  {
    if paths != [] {
      var init := paths[..|paths| - 1];
      assert forall k :: 0 <= k < |init| ==> init[k] == paths[k];
      RegisterFilesNoDuplicates(watching, init, stat);
    }
  }

  // ---------------------------------------------------------------------
  // The watcher

  class Watcher {
    const config: Config
    var watchPaths: seq<string>
    var fsWatching: seq<string>
    var pauseEvents: bool
    var isWatching: bool
    var timers: map<string, TimerState>
    /** How many times the rebuild callback (onEvent) has been invoked. */
    var onEventCalls: nat

    /** The timer map only ever holds the one debounce slot. */
    ghost predicate Valid()
      reads this
    {
      timers.Keys <= {FileModified}
    }

    /** When each action runs to completion before the next starts, events
        are paused exactly while a fired timer's callback runs.  (In the
        source, an event checked just before a firing pauses events can
        still re-arm the timer, so a firing can find events paused.) */
    ghost predicate Settled()
      reads this
    {
      pauseEvents <==> FileModified in timers && timers[FileModified] == Fired
    }

    constructor (conf: Config, paths: seq<string>)
      ensures Valid() && Settled()
      ensures config == conf && watchPaths == paths && fsWatching == []
      ensures !pauseEvents && !isWatching && timers == map[] && onEventCalls == 0
    {
      config := conf;
      watchPaths := paths;
      fsWatching := [];
      pauseEvents := false;
      isWatching := false;
      timers := map[];
      onEventCalls := 0;
    }

    /** isExcluded, rule list by rule list, with the early returns of the
        source. */
    method IsExcluded(path: string) returns (excluded: bool)
      ensures excluded == Classifier.Excluded(config, path)
    {
      if path == [] {
        return true;
      }
      if HasSuffix(path, "~") {
        return true;
      }
      var i := 0;
      while i < |config.includeFiles|
        invariant 0 <= i <= |config.includeFiles|
        invariant path !in config.includeFiles[..i]
      {
        if config.includeFiles[i] == path {
          return false;
        }
        assert config.includeFiles[..i + 1] == config.includeFiles[..i] + [config.includeFiles[i]];
        i := i + 1;
      }
      assert config.includeFiles[..i] == config.includeFiles;
      i := 0;
      while i < |config.excludeFiles|
        invariant 0 <= i <= |config.excludeFiles|
        invariant path !in config.excludeFiles[..i]
      {
        if config.excludeFiles[i] == path {
          return true;
        }
        assert config.excludeFiles[..i + 1] == config.excludeFiles[..i] + [config.excludeFiles[i]];
        i := i + 1;
      }
      assert config.excludeFiles[..i] == config.excludeFiles;

      var excludeMatchChars := 0;
      i := 0;
      while i < |config.excludeDirs|
        invariant 0 <= i <= |config.excludeDirs|
        invariant path !in config.excludeDirs[..i]
        invariant excludeMatchChars == Classifier.LastPrefixLen(config.excludeDirs[..i], path)
      {
        var dir := config.excludeDirs[i];
        if dir == path {
          return true;
        }
        assert config.excludeDirs[..i + 1] == config.excludeDirs[..i] + [dir];
        assert config.excludeDirs[..i + 1][..i] == config.excludeDirs[..i];
        if HasPrefix(path, dir) {
          excludeMatchChars := |dir|;
        }
        i := i + 1;
      }
      assert config.excludeDirs[..i] == config.excludeDirs;

      var includeMatchChars := 0;
      i := 0;
      while i < |config.includeDirs|
        invariant 0 <= i <= |config.includeDirs|
        invariant path !in config.includeDirs[..i]
        invariant includeMatchChars == Classifier.LastPrefixLen(config.includeDirs[..i], path)
      {
        var dir := config.includeDirs[i];
        if dir == path {
          return false;
        }
        assert config.includeDirs[..i + 1] == config.includeDirs[..i] + [dir];
        assert config.includeDirs[..i + 1][..i] == config.includeDirs[..i];
        if HasPrefix(path, dir) {
          includeMatchChars := |dir|;
        }
        i := i + 1;
      }
      assert config.includeDirs[..i] == config.includeDirs;

      if excludeMatchChars > includeMatchChars {
        return true;
      }

      var pathParts := Split(path, '/');
      var fileName := pathParts[|pathParts| - 1];
      assert fileName == Classifier.FileName(path);

      i := 0;
      while i < |config.excludePrefix|
        invariant 0 <= i <= |config.excludePrefix|
        invariant forall k :: 0 <= k < i ==> !HasPrefix(fileName, config.excludePrefix[k])
      {
        if HasPrefix(fileName, config.excludePrefix[i]) {
          return true;
        }
        i := i + 1;
      }
      i := 0;
      while i < |config.excludeExts|
        invariant 0 <= i <= |config.excludeExts|
        invariant forall k :: 0 <= k < i ==> !HasSuffix(fileName, config.excludeExts[k])
      {
        if HasSuffix(fileName, config.excludeExts[i]) {
          return true;
        }
        i := i + 1;
      }
      return false;
    }

    /** watchDir: registers a directory, or the parent directory of a file
        unless that parent is already watched.  A path that cannot be
        stat'ed changes nothing. */
    method WatchDir(dir: string, stat: map<string, bool>)
      requires Valid()
      modifies this
      ensures Valid()
      ensures fsWatching == AfterWatchDir(old(fsWatching), dir, stat)
      ensures watchPaths == old(watchPaths) && pauseEvents == old(pauseEvents)
      ensures isWatching == old(isWatching) && timers == old(timers) && onEventCalls == old(onEventCalls)
    {
      if dir !in stat {
        return;
      }
      var target := dir;
      var alreadyWatching := false;
      if !stat[dir] {
        var filePath := ParentDir(dir);
        var i := 0;
        while i < |fsWatching|
          invariant 0 <= i <= |fsWatching|
          invariant alreadyWatching <==> filePath in fsWatching[..i]
        {
          assert fsWatching[..i + 1] == fsWatching[..i] + [fsWatching[i]];
          if fsWatching[i] == filePath {
            alreadyWatching := true;
          }
          i := i + 1;
        }
        assert fsWatching[..i] == fsWatching;
        if !alreadyWatching {
          target := filePath;
        }
      }
      if !alreadyWatching {
        fsWatching := fsWatching + [target];
      }
    }

    /** watch: registers every path of the watch list in order, then marks
        the watcher as watching. */
    method Watch(stat: map<string, bool>)
      requires Valid()
      modifies this
      ensures Valid()
      ensures fsWatching == RegisterAll(old(fsWatching), watchPaths, stat)
      ensures isWatching
      ensures watchPaths == old(watchPaths) && pauseEvents == old(pauseEvents)
      ensures timers == old(timers) && onEventCalls == old(onEventCalls)
    {
      WatchEach(watchPaths, stat);
      isWatching := true;
    }

    /** Calls watchDir on each of `paths` in order, as the loops of watch
        and of the event loop do. */
    method WatchEach(paths: seq<string>, stat: map<string, bool>)
      requires Valid()
      modifies this
      ensures Valid()
      ensures fsWatching == RegisterAll(old(fsWatching), paths, stat)
      ensures watchPaths == old(watchPaths) && pauseEvents == old(pauseEvents) && isWatching == old(isWatching)
      ensures timers == old(timers) && onEventCalls == old(onEventCalls)
    {
      var i := 0;
      while i < |paths|
        invariant 0 <= i <= |paths|
        invariant Valid()
        invariant fsWatching == RegisterAll(old(fsWatching), paths[..i], stat)
        invariant watchPaths == old(watchPaths) && pauseEvents == old(pauseEvents) && isWatching == old(isWatching)
        invariant timers == old(timers) && onEventCalls == old(onEventCalls)
      {
        assert paths[..i + 1][..i] == paths[..i];
        WatchDir(paths[i], stat);
        i := i + 1;
      }
      assert paths[..i] == paths;
    }

    /** One change event reaching the event loop.  `created` is the walk of
        the event's path when it can be read as a directory, and None when
        it cannot.  An event is dropped while events are paused, and when
        its path is excluded; an accepted event registers the directories
        of a newly created tree and (re)arms the single debounce slot. */
    method HandleEvent(e: Event, stat: map<string, bool>, created: Option<seq<DirEntry>>)
      returns (accepted: bool)
      requires Valid()
      modifies this
      ensures Valid()
      ensures accepted <==> !old(pauseEvents) && !Classifier.Excluded(config, e.name)
      ensures !accepted ==> fsWatching == old(fsWatching) && timers == old(timers)
      ensures accepted ==> timers == map[FileModified := Armed]
      ensures accepted && e.create && created.Some? ==>
                fsWatching == RegisterAll(old(fsWatching), NestedDirs(created.value), stat)
      ensures accepted && !(e.create && created.Some?) ==> fsWatching == old(fsWatching)
      ensures watchPaths == old(watchPaths) && pauseEvents == old(pauseEvents)
      ensures isWatching == old(isWatching) && onEventCalls == old(onEventCalls)
      ensures old(Settled()) ==> Settled()
    {
      if pauseEvents {
        return false;
      }
      var excluded := IsExcluded(e.name);
      if excluded {
        return false;
      }
      if e.create && created.Some? {
        var walked := GetNestedPaths(Walked(created.value));
        WatchEach(walked.value, stat);
      }
      // A missing slot gets a new, stopped timer; either way it is reset
      // to count down the debounce delay again.
      timers := timers[FileModified := Armed];
      return true;
    }

    /** The debounce timer fires and its callback starts.  Unless events
        are paused, it pauses them and invokes onEvent once; the callback
        is then running until CallbackFinished.  If events are already
        paused it does nothing but clear the slot. */
    method TimerFired()
      requires Valid() && FileModified in timers && timers[FileModified] == Armed
      modifies this
      ensures Valid()
      ensures pauseEvents
      ensures !old(pauseEvents) ==>
                onEventCalls == old(onEventCalls) + 1 && timers == map[FileModified := Fired]
      ensures old(pauseEvents) ==> onEventCalls == old(onEventCalls) && timers == map[]
      ensures fsWatching == old(fsWatching) && watchPaths == old(watchPaths) && isWatching == old(isWatching)
      ensures old(Settled()) ==> Settled()
    {
      if !pauseEvents {
        pauseEvents := true;
        onEventCalls := onEventCalls + 1;
        timers := timers[FileModified := Fired];
      } else {
        timers := timers - {FileModified};
      }
    }

    /** onEvent returns: events are resumed and the slot is cleared. */
    method CallbackFinished()
      requires Valid() && pauseEvents
      modifies this
      ensures Valid()
      ensures !pauseEvents && timers == map[] && Settled()
      ensures onEventCalls == old(onEventCalls)
      ensures fsWatching == old(fsWatching) && watchPaths == old(watchPaths) && isWatching == old(isWatching)
    {
      pauseEvents := false;
      timers := timers - {FileModified};
    }

    /** endWatch: closes the subscription when watching; a failing close
        leaves the watcher watching. */
    method EndWatch(closeFails: bool)
      requires Valid()
      modifies this
      ensures Valid()
      ensures isWatching == (old(isWatching) && closeFails)
      ensures fsWatching == old(fsWatching) && watchPaths == old(watchPaths)
      ensures pauseEvents == old(pauseEvents) && timers == old(timers) && onEventCalls == old(onEventCalls)
    {
      if isWatching {
        if closeFails {
          return;
        }
        isWatching := false;
      }
    }
  }

  /** A walk of an included directory that panics makes the whole
      include-directory part panic. */
  lemma IncludeDirPathsPanics(includeDirs: seq<string>, walk: string -> Walk, k: nat)
    requires k < |includeDirs| && NestedPaths(walk(includeDirs[k])).None?
    ensures IncludeDirPaths(includeDirs, walk).None?
  {
    IncludeDirPathsMembers(includeDirs, walk, "");
  }

  /** The loop of newWatcher over the included directories, appending what
      each walk finds. */
  method CollectIncludeDirs(includeDirs: seq<string>, walk: string -> Walk) returns (paths: Option<seq<string>>)
    ensures paths == IncludeDirPaths(includeDirs, walk)
  {
    var found := [];
    var i := 0;
    while i < |includeDirs|
      invariant 0 <= i <= |includeDirs|
      invariant IncludeDirPaths(includeDirs[..i], walk) == Some(found)
    {
      var dirs := GetNestedPaths(walk(includeDirs[i]));
      if dirs.None? {
        IncludeDirPathsPanics(includeDirs, walk, i);
        return None;
      }
      assert includeDirs[..i + 1][..i] == includeDirs[..i];
      found := found + dirs.value;
      i := i + 1;
    }
    assert includeDirs[..i] == includeDirs;
    return Some(found);
  }

  /** newWatcher: assembles the watch list from the walks of the project
      path and of each included directory, and the included files.  The
      walks never report an error; a walk whose root os.Lstat cannot read
      panics (None) unless the root's path holds a '.'. */
  method NewWatcher(conf: Config, walk: string -> Walk) returns (w: Option<Watcher>)
    ensures w.None? <==> WatchPaths(conf, walk).None?
    ensures w.Some? ==> fresh(w.value) && w.value.Valid() && w.value.Settled()
    ensures w.Some? ==> w.value.config == conf && Some(w.value.watchPaths) == WatchPaths(conf, walk)
    ensures w.Some? ==> w.value.fsWatching == [] && !w.value.pauseEvents && !w.value.isWatching
    ensures w.Some? ==> w.value.timers == map[] && w.value.onEventCalls == 0
  {
    var paths := GetNestedPaths(walk(conf.path));
    if paths.None? {
      return None;
    }
    var includeDirs := CollectIncludeDirs(conf.includeDirs, walk);
    if includeDirs.None? {
      return None;
    }
    var watcher := new Watcher(conf, paths.value + includeDirs.value + conf.includeFiles);
    return Some(watcher);
  }

  /** A client of the watcher: any burst of accepted events arms one slot,
      so one firing invokes the callback once; every event arriving while
      the callback runs is dropped; when the callback returns, nothing is
      pending and events flow again. */
  method DebounceCoalescesBurst(w: Watcher, burst: seq<Event>, during: seq<Event>,
                                stat: map<string, bool>, created: Option<seq<DirEntry>>)
    requires w.Valid() && w.Settled() && !w.pauseEvents && |burst| >= 1
    requires forall k :: 0 <= k < |burst| ==> !Classifier.Excluded(w.config, burst[k].name)
    modifies w
    ensures w.Valid() && w.Settled()
    ensures w.onEventCalls == old(w.onEventCalls) + 1
    ensures !w.pauseEvents && w.timers == map[]
    ensures w.fsWatching == old(w.fsWatching)
  {
    var i := 0;
    while i < |burst|
      invariant 0 <= i <= |burst|
      invariant w.Valid() && w.Settled() && !w.pauseEvents
      invariant w.onEventCalls == old(w.onEventCalls) && w.fsWatching == old(w.fsWatching)
      invariant i > 0 ==> w.timers == map[FileModified := Armed]
    {
      var accepted := w.HandleEvent(burst[i], map[], None);
      i := i + 1;
    }
    w.TimerFired();
    i := 0;
    while i < |during|
      invariant 0 <= i <= |during|
      invariant w.Valid() && w.Settled() && w.pauseEvents
      invariant w.onEventCalls == old(w.onEventCalls) + 1 && w.fsWatching == old(w.fsWatching)
      invariant w.timers == map[FileModified := Fired]
    {
      var accepted := w.HandleEvent(during[i], stat, created);
      i := i + 1;
    }
    w.CallbackFinished();
  }
}
