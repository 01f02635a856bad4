/** The path classifier of watcher.go (`isExcluded`): decides whether a
    changed path is ignored, given the six rule lists of the configuration.
    The rules are tried in a fixed order and the first that applies decides:
    empty or backup path, exact include file, exact exclude file, exact
    exclude directory, exact include directory, directory scoping, and
    finally the file-name prefix and extension rules. */
module Classifier {
  import opened Strings
  import opened Config

  /** The length of the LAST entry of `dirs`, in list order, that is a
      string prefix of `path`, or 0 when none is.  This is what the
      scanning loop computes: each match overwrites the previous one. */
  function LastPrefixLen(dirs: seq<string>, path: string): (n: nat)
    ensures n <= |path|
    ensures n == 0 || exists k :: 0 <= k < |dirs| && HasPrefix(path, dirs[k]) && n == |dirs[k]|
  {
    if dirs == [] then 0
    else if HasPrefix(path, dirs[|dirs| - 1]) then |dirs[|dirs| - 1]|
    else
      var n := LastPrefixLen(dirs[..|dirs| - 1], path);
      assert forall k :: 0 <= k < |dirs| - 1 ==> dirs[..|dirs| - 1][k] == dirs[k];
      n
  }

  /** The entry that decides is the last matching one, whatever the
      lengths of earlier matches. */
  lemma {:induction false} LastPrefixLenIsLastMatch(dirs: seq<string>, path: string, k: nat)
    requires k < |dirs| && HasPrefix(path, dirs[k])
    requires forall j :: k < j < |dirs| ==> !HasPrefix(path, dirs[j])
    ensures LastPrefixLen(dirs, path) == |dirs[k]|
    decreases |dirs|
  {
    if k < |dirs| - 1 {
      var init := dirs[..|dirs| - 1];
      assert init[k] == dirs[k];
      LastPrefixLenIsLastMatch(init, path, k);
    }
  }

  /** With no matching entry the match length is 0. */
  lemma {:induction false} LastPrefixLenNoMatch(dirs: seq<string>, path: string)
    requires forall j :: 0 <= j < |dirs| ==> !HasPrefix(path, dirs[j])
    ensures LastPrefixLen(dirs, path) == 0
    decreases |dirs|
  {
    if dirs != [] {
      LastPrefixLenNoMatch(dirs[..|dirs| - 1], path);
    }
  }

  /** The length of the LONGEST entry of `dirs` that is a prefix of `path`. */
  function LongestPrefixLen(dirs: seq<string>, path: string): (n: nat)
    ensures forall k :: 0 <= k < |dirs| && HasPrefix(path, dirs[k]) ==> |dirs[k]| <= n
    ensures n == 0 || exists k :: 0 <= k < |dirs| && HasPrefix(path, dirs[k]) && n == |dirs[k]|
  {
    if dirs == [] then 0
    else
      var rest := LongestPrefixLen(dirs[1..], path);
      assert forall k :: 1 <= k < |dirs| ==> dirs[k] == dirs[1..][k - 1];
      if HasPrefix(path, dirs[0]) && |dirs[0]| > rest then |dirs[0]| else rest
  }

  /** The last match is never longer than the longest match, and the two
      agree when the entries are listed from shorter to longer. */
  lemma {:induction false} LastVersusLongest(dirs: seq<string>, path: string)
    ensures LastPrefixLen(dirs, path) <= LongestPrefixLen(dirs, path)
    ensures (forall i, j :: 0 <= i < j < |dirs| ==> |dirs[i]| <= |dirs[j]|)
              ==> LastPrefixLen(dirs, path) == LongestPrefixLen(dirs, path)
  {
    if forall i, j :: 0 <= i < j < |dirs| ==> |dirs[i]| <= |dirs[j]| {
      var n := LongestPrefixLen(dirs, path);
      if n > 0 {
        var k :| 0 <= k < |dirs| && HasPrefix(path, dirs[k]) && n == |dirs[k]|;
        var last := k;
        while last + 1 < |dirs| && exists j :: last < j < |dirs| && HasPrefix(path, dirs[j])
          invariant k <= last < |dirs| && HasPrefix(path, dirs[last]) && |dirs[last]| == n
          decreases |dirs| - last
        {
          var j :| last < j < |dirs| && HasPrefix(path, dirs[j]);
          last := j;
        }
        LastPrefixLenIsLastMatch(dirs, path, last);
      }
    }
  }

  /** The file name of a path: the text after its last '/'. */
  function FileName(path: string): (name: string)
    ensures '/' !in name && |name| <= |path| && path[|path| - |name|..] == name
    ensures '/' !in path ==> name == path
  {
    LastFieldSuffix(path, '/');
    LastField(path, '/')
  }

  /** The file-name rules: a name starting with an excluded prefix or
      ending with an excluded extension. */
  predicate NameExcluded(name: string, prefixes: seq<string>, exts: seq<string>): (excluded: bool)
    ensures prefixes == [] && exts == [] ==> !excluded
    ensures "" in prefixes || "" in exts ==> excluded
  {
    (exists p :: p in prefixes && HasPrefix(name, p)) ||
    (exists e :: e in exts && HasSuffix(name, e))
  }

  /** isExcluded: the rules in their order of precedence.  A path is only
      ever excluded for a reason: it is empty or a backup file, or an
      exclude rule matches it; and it is never excluded when it is an
      included file that is neither empty nor a backup file. */
  predicate Excluded(c: Config, path: string): (excluded: bool)
    ensures excluded ==>
              path == [] || HasSuffix(path, "~") || path in c.excludeFiles || path in c.excludeDirs
              || (exists d :: d in c.excludeDirs && d != [] && HasPrefix(path, d))
              || NameExcluded(FileName(path), c.excludePrefix, c.excludeExts)
    ensures excluded && path in c.includeFiles ==> path == [] || HasSuffix(path, "~")
  {
    if path == [] then true
    else if HasSuffix(path, "~") then true
    else if path in c.includeFiles then false
    else if path in c.excludeFiles then true
    else if path in c.excludeDirs then true
    else if path in c.includeDirs then false
    else if LastPrefixLen(c.excludeDirs, path) > LastPrefixLen(c.includeDirs, path) then true
    else NameExcluded(FileName(path), c.excludePrefix, c.excludeExts)
  }

  /** An empty path and a backup file (a trailing '~') are excluded, even
      when listed as an included file. */
  lemma EmptyOrBackupExcluded(c: Config, path: string)
    requires path == [] || (|path| > 0 && path[|path| - 1] == '~')
    ensures Excluded(c, path)
  {
    if path != [] {
      assert path[|path| - 1..] == "~";
    }
  }

  /** A path that is not a backup file and equals an included file is not
      excluded, even when it is also an excluded file or lies under (or
      equals) an excluded directory. */
  lemma IncludedFileWins(c: Config, path: string)
    requires path in c.includeFiles
    requires path != [] && !HasSuffix(path, "~")
    ensures !Excluded(c, path)
  {
  }

  /** Otherwise a path equal to an excluded file is excluded. */
  lemma ExcludedFileExcluded(c: Config, path: string)
    requires path in c.excludeFiles && path !in c.includeFiles
    ensures Excluded(c, path)
  {
  }

  /** A path equal to an excluded directory is excluded even when it also
      equals an included directory; failing that, a path equal to an
      included directory is not excluded. */
  lemma ExactDirectoryRules(c: Config, path: string)
    requires path !in c.includeFiles && path !in c.excludeFiles
    ensures path in c.excludeDirs ==> Excluded(c, path)
    ensures (path !in c.excludeDirs && path in c.includeDirs && path != [] && !HasSuffix(path, "~"))
              ==> !Excluded(c, path)
  {
  }

  /** Directory scoping: when no exact rule applies, the path is excluded
      if the last matching excluded directory is longer than the last
      matching included directory; when it is not, only the file-name
      rules can exclude it, and nothing else does. */
  lemma DirectoryScoping(c: Config, path: string)
    requires path != [] && !HasSuffix(path, "~")
    requires path !in c.includeFiles && path !in c.excludeFiles
    requires path !in c.excludeDirs && path !in c.includeDirs
    ensures LastPrefixLen(c.excludeDirs, path) > LastPrefixLen(c.includeDirs, path) ==> Excluded(c, path)
    ensures (LastPrefixLen(c.excludeDirs, path) <= LastPrefixLen(c.includeDirs, path))
              ==> (Excluded(c, path) <==> NameExcluded(FileName(path), c.excludePrefix, c.excludeExts))
  {
  }

  /** An included directory nested inside an excluded one carves its
      subtree out of the exclusion: with those two directories as the only
      directory rules and no file-name rules, a path strictly below the
      excluded directory is excluded exactly when it is not below the
      included one. */
  lemma {:induction false} NestedIncludeCarvesOut(c: Config, path: string, outer: string, inner: string)
    requires c.excludeDirs == [outer] && c.includeDirs == [inner]
    requires outer != [] && HasPrefix(inner, outer)
    requires c.excludePrefix == [] && c.excludeExts == []
    requires path != [] && !HasSuffix(path, "~")
    requires path !in c.includeFiles && path !in c.excludeFiles
    requires path != outer && path != inner
    ensures Excluded(c, path) <==> HasPrefix(path, outer) && !HasPrefix(path, inner)
  {
    if HasPrefix(path, inner) {
      assert path[..|outer|] == inner[..|outer|];
      LastPrefixLenIsLastMatch(c.excludeDirs, path, 0);
      LastPrefixLenIsLastMatch(c.includeDirs, path, 0);
    } else if HasPrefix(path, outer) {
      LastPrefixLenIsLastMatch(c.excludeDirs, path, 0);
      LastPrefixLenNoMatch(c.includeDirs, path);
    } else {
      LastPrefixLenNoMatch(c.excludeDirs, path);
    }
  }

  /** Prefix matching is on characters, not on path segments: an excluded
      directory "/p/vendor" also excludes "/p/vendorX/a.go". */
  lemma PrefixIsNotSegmentAware(c: Config)
    requires c.excludeDirs == ["/p/vendor"] && c.includeDirs == []
    requires "/p/vendorX/a.go" !in c.includeFiles
    ensures Excluded(c, "/p/vendorX/a.go")
  {
    var path := "/p/vendorX/a.go";
    assert path[..9] == "/p/vendor";
    assert path[|path| - 1..] != "~";
    LastPrefixLenIsLastMatch(c.excludeDirs, path, 0);
  }

  /** Because the last match decides rather than the longest, a narrower
      excluded directory listed before a broader one loses to an included
      directory that a longest-match rule would let it override. */
  lemma LastMatchIsNotLongestMatch(c: Config)
    requires c.excludeDirs == ["/p/v/x", "/p"] && c.includeDirs == ["/p/v"]
    requires c.includeFiles == [] && c.excludeFiles == []
    requires c.excludePrefix == [] && c.excludeExts == []
    ensures !Excluded(c, "/p/v/x/f")
    ensures LongestPrefixLen(c.excludeDirs, "/p/v/x/f") > LongestPrefixLen(c.includeDirs, "/p/v/x/f")
  {
    var path := "/p/v/x/f";
    assert path[..6] == "/p/v/x";
    assert path[..2] == "/p";
    assert path[..4] == "/p/v";
    assert path[|path| - 1..] != "~";
    LastPrefixLenIsLastMatch(c.excludeDirs, path, 1);
    LastPrefixLenIsLastMatch(c.includeDirs, path, 0);
    assert LongestPrefixLen(c.excludeDirs, path) >= 6;
  }

  /** With all six rule lists empty, only the empty path and backup files
      are excluded. */
  lemma NoRulesExcludeOnlyBackups(c: Config, path: string)
    requires c.excludeDirs == [] && c.excludeFiles == [] && c.excludeExts == []
    requires c.excludePrefix == [] && c.includeDirs == [] && c.includeFiles == []
    ensures Excluded(c, path) <==> path == [] || path[|path| - 1] == '~'
  {
    if path != [] {
      assert HasSuffix(path, "~") <==> path[|path| - 1] == '~' by {
        if path[|path| - 1] == '~' {
          assert path[|path| - 1..] == "~";
        }
      }
    }
  }

  /** The binary that the builder writes (path + "/" + name, appended to
      the excluded files when the configuration is loaded) is ignored by
      the watcher unless it is explicitly included. */
  lemma BuiltBinaryIgnored(c: Config)
    requires BinaryPath(c) !in c.includeFiles
    ensures Excluded(WithBinaryExcluded(c), BinaryPath(c))
  {
  }

  /** The file name the name rules see is the last '/'-separated segment. */
  lemma FileNameIsLastSegment(path: string)
    ensures HasSuffix(path, FileName(path)) && '/' !in FileName(path)
    ensures FileName(path) == path || path[|path| - |FileName(path)| - 1] == '/'
  {
    LastFieldSuffix(path, '/');
  }
}
