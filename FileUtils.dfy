/** The test-support path helpers: the executable's directory relative to the working
    directory, the search upward for the project root, the output directory and the
    resource file candidates. The file system is a value (which paths exist and which of
    them are directories), the working directory is an input, and the build (Windows or
    not, WinRT or not) is a parameter. */
module FileUtils {
  import opened Common

  /** What the build was compiled for. WinRT builds are Windows builds. */
  datatype Build = Build(win32: bool, winrt: bool, platform: string, arch64: bool)

  predicate ValidBuild(b: Build) { b.winrt ==> b.win32 }

  /** `kPathDelimiter`. */
  function Delimiter(b: Build): char
  {
    if b.win32 then '\\' else '/'
  }

  /** `kProjectRootFileName`: empty on WinRT, `DEPS` elsewhere. */
  function ProjectRootFileName(b: Build): string
  {
    if b.winrt then "" else "DEPS"
  }

  const FallbackPath: string := "./"
  const OutputDirName: string := "out"
  const ResourcesDirName: string := "resources"
  const CannotFindProjectRootDir: string := "ERROR_CANNOT_FIND_PROJECT_ROOT_DIR"
  /** The wide-character buffer the WinRT output path is copied into, terminator included. */
  const LocalFolderBufferChars: nat := 255

  /** The paths that exist; the value says whether the path is a directory. */
  type FileSystem = map<string, bool>

  /** `FileExists`. */
  predicate FileExists(fs: FileSystem, path: string)
  {
    path in fs
  }

  /** `std::string::find(needle) != npos`. */
  predicate Contains(s: string, needle: string)
  {
    exists i :: 0 <= i <= |s| && OccursAt(s, needle, i)
  }

  predicate OccursAt(s: string, needle: string, i: int)
  {
    0 <= i <= |s| - |needle| && s[i..i + |needle|] == needle
  }

  /** `find_last_of(c)`: the last index of `c`, or -1 for `npos`. */
  function LastIndexOf(s: string, c: char): (r: int)
    ensures -1 <= r < |s|
    ensures r >= 0 ==> s[r] == c
    ensures forall j :: r < j < |s| ==> s[j] != c
    decreases |s|
  {
    if s == [] then -1
    else if s[|s| - 1] == c then |s| - 1
    else LastIndexOf(s[..|s| - 1], c)
  }

  /** `std::replace(begin, end, '/', '\\')`. */
  function ReplaceSlashes(s: string): (r: string)
    ensures |r| == |s|
    ensures forall i :: 0 <= i < |s| ==> r[i] == (if s[i] == '/' then '\\' else s[i])
    ensures '/' !in r
  {
    seq(|s|, i requires 0 <= i < |s| => if s[i] == '/' then '\\' else s[i])
  }

  /** `WorkingDir` on desktop builds: the current directory, or the fallback when it
      cannot be read; on WinRT the install location, or the fallback when it is empty. */
  function WorkingDir(b: Build, current: Option<string>): (r: string)
    ensures current.None? ==> r == FallbackPath
  {
    if current.None? then FallbackPath
    else if b.winrt && current.value == "" then FallbackPath
    else current.value
  }

  /** The upward search of `ProjectRootPath` from `path`: the first directory, going up one
      delimiter at a time, that holds the marker file. */
  function SearchUp(b: Build, fs: FileSystem, path: string): (r: string)
    ensures r != CannotFindProjectRootDir ==>
      |r| > 0 && r[|r| - 1] == Delimiter(b) && FileExists(fs, r + ProjectRootFileName(b))
    ensures Delimiter(b) !in path ==> r == CannotFindProjectRootDir
    decreases |path|
  {
    var d := LastIndexOf(path, Delimiter(b));
    if d < 0 then CannotFindProjectRootDir
    else if FileExists(fs, path + [Delimiter(b)] + ProjectRootFileName(b)) then path + [Delimiter(b)]
    else SearchUp(b, fs, path[..d])
  }

  /** What the search finds is the start path or a directory above it, with the marker
      file; otherwise the error string. */
  lemma {:induction false} SearchUpFindsMarker(b: Build, fs: FileSystem, path: string)
    ensures var r := SearchUp(b, fs, path);
      r == CannotFindProjectRootDir
      || (exists k :: 0 <= k <= |path| && r == path[..k] + [Delimiter(b)]
                      && FileExists(fs, path[..k] + [Delimiter(b)] + ProjectRootFileName(b)))
    decreases |path|
  {
    var d := LastIndexOf(path, Delimiter(b));
    if d >= 0 && !FileExists(fs, path + [Delimiter(b)] + ProjectRootFileName(b)) {
      SearchUpFindsMarker(b, fs, path[..d]);
      var r := SearchUp(b, fs, path);
      if r != CannotFindProjectRootDir {
        var k :| 0 <= k <= |path[..d]| && r == path[..d][..k] + [Delimiter(b)]
                 && FileExists(fs, path[..d][..k] + [Delimiter(b)] + ProjectRootFileName(b));
        assert path[..d][..k] == path[..k];
      }
    } else if d >= 0 {
      assert path[..|path|] == path;
    }
  }

  /** A marker file in the start directory is found at once. */
  lemma MarkerHereFound(b: Build, fs: FileSystem, path: string)
    requires Delimiter(b) in path
    requires FileExists(fs, path + [Delimiter(b)] + ProjectRootFileName(b))
    ensures SearchUp(b, fs, path) == path + [Delimiter(b)]
  {
  }

  /** `CreateDir`: an existing path succeeds exactly when it is a directory; otherwise the
      result of `mkdir` (an input) decides. */
  function CreateDir(fs: FileSystem, path: string, mkdirSucceeds: bool): (r: bool)
    ensures FileExists(fs, path) ==> (r <==> fs[path])
    ensures !FileExists(fs, path) ==> r == mkdirSucceeds
  {
    if path in fs then fs[path] else mkdirSucceeds
  }

  /** The candidates `ResourcePath` tries, in order, under the resources directory: with
      platform and architecture, with platform only, with architecture only. */
  function ResourceCandidates(resourcesPath: string, name: string, platform: string, arch: string,
                              extension: string): (r: seq<string>)
    ensures |r| == 3
  {
    [resourcesPath + name + "_" + platform + "_" + arch + "." + extension,
     resourcesPath + name + "_" + platform + "." + extension,
     resourcesPath + name + "_" + arch + "." + extension]
  }

  /** The architecture suffix. */
  function Architecture(b: Build): string
  {
    if b.arch64 then "64" else "32"
  }

  /** The globals `relative_dir_path` and `relative_dir_path_set`. */
  class TestPaths {
    const build: Build
    var relativeDirPath: string
    var relativeDirPathSet: bool

    constructor(b: Build)
      requires ValidBuild(b)
      ensures build == b && relativeDirPath == "" && !relativeDirPathSet
    {
      build := b;
      relativeDirPath := "";
      relativeDirPathSet := false;
    }

    /** `SetExecutablePath`: when the working directory occurs in the path, the first
        `|workingDir| + 1` characters are dropped (`substr` throws when the path is not that
        long: `completed` is false and nothing changes); on Windows slashes become
        backslashes; the part before the last delimiter is kept. */
    method SetExecutablePath(path: string, workingDir: string) returns (completed: bool)
      modifies this
      ensures completed <==> !Contains(path, workingDir) || |workingDir| + 1 <= |path|
      ensures !completed ==> relativeDirPath == old(relativeDirPath) && relativeDirPathSet == old(relativeDirPathSet)
      ensures completed ==> relativeDirPathSet
      ensures completed ==>
        var relative := if Contains(path, workingDir) then path[|workingDir| + 1..] else path;
        var slashed := if build.win32 then ReplaceSlashes(relative) else relative;
        var d := LastIndexOf(slashed, Delimiter(build));
        relativeDirPath == if d >= 0 then slashed[..d] else slashed
    {
      var temp := path;
      if Contains(path, workingDir) {
        if |path| < |workingDir| + 1 {
          return false;
        }
        temp := path[|workingDir| + 1..];
      }
      if build.win32 {
        temp := ReplaceSlashes(temp);
      }
      var d := LastIndexOf(temp, Delimiter(build));
      relativeDirPath := if d >= 0 then temp[..d] else temp;
      relativeDirPathSet := true;
      completed := true;
    }

    /** The root `ProjectRootPath` finds for a working directory. */
    function RootFor(workingDir: string, fs: FileSystem): (r: string)
      reads this
      ensures workingDir == FallbackPath ==> r == CannotFindProjectRootDir
      ensures workingDir != FallbackPath && build.winrt ==> r == workingDir + [Delimiter(build)]
      ensures !build.winrt && r != CannotFindProjectRootDir ==>
        |r| > 0 && r[|r| - 1] == Delimiter(build) && FileExists(fs, r + ProjectRootFileName(build))
    {
      if workingDir == FallbackPath then CannotFindProjectRootDir
      else if build.winrt then workingDir + [Delimiter(build)]
      else SearchUp(build, fs, if relativeDirPathSet then workingDir + [Delimiter(build)] + relativeDirPath
                               else workingDir)
    }

    /** `ProjectRootPath`: the error string for the fallback working directory; on WinRT the
        working directory itself; otherwise the upward search from the working directory,
        extended by the executable's relative directory when one is set. */
    method ProjectRootPath(workingDir: string, fs: FileSystem) returns (root: string)
      ensures root == RootFor(workingDir, fs)
    {
      var path := workingDir;
      if path == FallbackPath {
        return CannotFindProjectRootDir;
      }
      if build.winrt {
        return path + [Delimiter(build)];
      }
      if relativeDirPathSet {
        path := path + [Delimiter(build)] + relativeDirPath;
      }
      var d := LastIndexOf(path, Delimiter(build));
      while d >= 0
        invariant d == LastIndexOf(path, Delimiter(build))
        invariant SearchUp(build, fs, path) == SearchUp(build, fs, if relativeDirPathSet
                    then workingDir + [Delimiter(build)] + relativeDirPath else workingDir)
        decreases |path|
      {
        var rootFileName := path + [Delimiter(build)] + ProjectRootFileName(build);
        if rootFileName in fs {
          return path + [Delimiter(build)];
        }
        path := path[..d];
        d := LastIndexOf(path, Delimiter(build));
      }
      root := CannotFindProjectRootDir;
    }

    /** `OutputPath`. On WinRT: the application's local folder `localFolder`, cut to the
        254 characters `wcsncpy_s` keeps with `_TRUNCATE` in a 255-character buffer, then the
        delimiter. Elsewhere: `<root>out<delimiter>`, or the fallback when the root is not
        found or the directory cannot be made. */
    method OutputPath(workingDir: string, fs: FileSystem, mkdirSucceeds: bool, localFolder: string)
      returns (path: string)
      ensures build.winrt ==>
        && |path| == Min(|localFolder|, LocalFolderBufferChars - 1) + 1
        && path[..|path| - 1] <= localFolder
        && path[|path| - 1] == Delimiter(build)
      ensures !build.winrt ==>
        var root := RootFor(workingDir, fs);
        path == if root == CannotFindProjectRootDir || !CreateDir(fs, root + OutputDirName, mkdirSucceeds)
                then FallbackPath
                else root + OutputDirName + [Delimiter(build)]
    {
      if build.winrt {
        var kept := Min(|localFolder|, LocalFolderBufferChars - 1);
        path := localFolder[..kept] + [Delimiter(build)];
        assert path[..|path| - 1] == localFolder[..kept];
        return;
      }
      var root := ProjectRootPath(workingDir, fs);
      if root == CannotFindProjectRootDir {
        return FallbackPath;
      }
      var dir := root + OutputDirName;
      var created := CreateDir(fs, dir, mkdirSucceeds);
      if !created {
        return FallbackPath;
      }
      path := dir + [Delimiter(build)];
    }

    /** `ResourcePath`: the first existing candidate, or the plain `name.extension`. */
    method ResourcePath(workingDir: string, fs: FileSystem, name: string, extension: string) returns (path: string)
      ensures var resources := RootFor(workingDir, fs) + ResourcesDirName + [Delimiter(build)];
        var candidates := ResourceCandidates(resources, name, build.platform, Architecture(build), extension);
        path == FirstExisting(fs, candidates, resources + name + "." + extension)
    {
      var root := ProjectRootPath(workingDir, fs);
      var resources := root + ResourcesDirName + [Delimiter(build)];
      var candidates := ResourceCandidates(resources, name, build.platform, Architecture(build), extension);
      var fallback := resources + name + "." + extension;
      FirstExistingOfThree(fs, candidates[0], candidates[1], candidates[2], fallback);
      if candidates[0] in fs {
        path := candidates[0];
      } else if candidates[1] in fs {
        path := candidates[1];
      } else if candidates[2] in fs {
        path := candidates[2];
      } else {
        path := fallback;
      }

    }
  }

  /** The first candidate that exists, else the fallback. */
  function FirstExisting(fs: FileSystem, candidates: seq<string>, fallback: string): (r: string)
    ensures r == fallback || (r in candidates && FileExists(fs, r))
    ensures (forall c :: c in candidates ==> !FileExists(fs, c)) ==> r == fallback
    decreases |candidates|
  {
    if candidates == [] then fallback
    else if FileExists(fs, candidates[0]) then candidates[0]
    else FirstExisting(fs, candidates[1..], fallback)
  }

  /** With three candidates the first existing one of them is chosen, in order. */
  lemma FirstExistingOfThree(fs: FileSystem, a: string, b: string, c: string, fallback: string)
    ensures FirstExisting(fs, [a, b, c], fallback)
         == if a in fs then a else if b in fs then b else if c in fs then c else fallback
  {
    assert [a, b, c][1..] == [b, c];
    assert [b, c][1..] == [c];
    assert [c][1..] == [];
    assert FirstExisting(fs, [], fallback) == fallback;
    assert FirstExisting(fs, [c], fallback) == if c in fs then c else fallback;
    assert FirstExisting(fs, [b, c], fallback) == if b in fs then b else FirstExisting(fs, [c], fallback);
  }

  /** A candidate earlier in the order wins over every later one. */
  lemma {:induction false} FirstExistingPrefersEarlier(fs: FileSystem, candidates: seq<string>, fallback: string, i: nat)
    requires i < |candidates| && FileExists(fs, candidates[i])
    requires forall j :: 0 <= j < i ==> !FileExists(fs, candidates[j])
    ensures FirstExisting(fs, candidates, fallback) == candidates[i]
    decreases i
  {
    if i > 0 {
      FirstExistingPrefersEarlier(fs, candidates[1..], fallback, i - 1);
    }
  }
}
