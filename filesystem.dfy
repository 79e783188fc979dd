/** The part of the Windows filesystem the store touches: which directories exist,
    the text files (as their lines), and the path functions `Path.Combine`,
    `Path.IsPathRooted` and `DirectoryInfo.Name`. */
module FileSystems {
  import opened Strings

  predicate IsLetter(ch: char)
  {
    'a' <= ch <= 'z' || 'A' <= ch <= 'Z'
  }

  predicate IsSeparator(ch: char)
  {
    ch == '\\' || ch == '/'
  }

  /** `Path.IsPathRooted` on Windows: a leading separator or a drive letter and colon. */
  predicate IsRooted(path: string)
  {
    (|path| >= 1 && IsSeparator(path[0])) || (|path| >= 2 && IsLetter(path[0]) && path[1] == ':')
  }

  /** `Path.Combine(first, second)`: an empty second part gives the first, a rooted
      one (or an empty first part) replaces the first; otherwise the second is appended
      with one `\` in between, unless the first already ends in a separator or a
      drive's colon. */
  function Combine(first: string, second: string): (r: string)
    ensures second == "" ==> r == first
    ensures second != "" && (first == "" || IsRooted(second)) ==> r == second
    ensures second != "" && first != "" && !IsRooted(second) ==>
      var f := |first|;
      |r| >= f + |second| && r[..f] == first && r[|r| - |second|..] == second &&
      (|r| == f + |second| <==> IsSeparator(first[f - 1]) || first[f - 1] == ':') &&
      (|r| != f + |second| ==> |r| == f + 1 + |second| && r[f] == Backslash)
  {
    if second == "" then first
    else if first == "" || IsRooted(second) then second
    else if IsSeparator(first[|first| - 1]) || first[|first| - 1] == ':' then first + second
    else first + "\\" + second
  }

  /** A directory path with exactly one trailing `\`, as `TrimEnd('\\') + "\\"` makes it. */
  function NormaliseDir(path: string): (r: string)
    ensures |r| >= 1 && r[|r| - 1] == Backslash
  {
    TrimEnd(path, Backslash) + [Backslash]
  }

  /** The text after the last `\`. */
  function LastSegment(s: string): (r: string)
    ensures Backslash !in r
    decreases |s|
  {
    if Backslash in s then LastSegment(s[IndexOf(s, Backslash) + 1..]) else s
  }

  /** The last segment is a suffix free of `\` that is the whole string or follows a `\`. */
  lemma {:induction false} LastSegmentSuffix(s: string)
    ensures |LastSegment(s)| <= |s|
    ensures LastSegment(s) == s[|s| - |LastSegment(s)|..]
    ensures |LastSegment(s)| < |s| ==> s[|s| - |LastSegment(s)| - 1] == Backslash
    decreases |s|
  {
    if Backslash in s {
      var i := IndexOf(s, Backslash);
      var tail := s[i + 1..];
      LastSegmentSuffix(tail);
      var r := LastSegment(tail);
      assert LastSegment(s) == r;
      var k := |s| - |r|;
      assert k >= i + 1;
      assert tail[|tail| - |r|..] == s[k..];
      if |r| < |tail| {
        assert tail[|tail| - |r| - 1] == s[k - 1];
      } else {
        assert k - 1 == i;
      }
    }
  }

  /** `new DirectoryInfo(path).Name`: the last segment, trailing separators ignored. */
  function DirectoryName(path: string): string
  {
    LastSegment(TrimEnd(path, Backslash))
  }

  /** Directories are keyed by their path without trailing separators, so
      `Directory.Exists("a\\b")` and `Directory.Exists("a\\b\\")` agree. */
  function DirKey(path: string): string
  {
    TrimEnd(path, Backslash)
  }

  /** Normalising a directory path does not change which directory it names. */
  lemma DirKeyNormalised(path: string)
    ensures DirKey(NormaliseDir(path)) == DirKey(path)
  {
    TrimEndStep(TrimEnd(path, Backslash), Backslash);
    TrimEndUnique(TrimEnd(path, Backslash), Backslash, |TrimEnd(path, Backslash)|);
  }

  class FileSystem {
    /** The directories that exist, by `DirKey`. */
    var dirs: set<string>
    /** The text files that exist, by full path, as their lines. */
    var files: map<string, seq<string>>

    constructor (dirs: set<string>, files: map<string, seq<string>>)
      ensures this.dirs == dirs && this.files == files
    {
      this.dirs := dirs;
      this.files := files;
    }

    /** `Directory.Exists(path)`. */
    predicate DirectoryExists(path: string)
      reads this
    {
      DirKey(path) in dirs
    }

    /** The lines of a file; a file that does not exist reads as empty, which is what
        opening it with `FileMode.OpenOrCreate` gives. */
    function ReadLines(path: string): seq<string>
      reads this
    {
      if path in files then files[path] else []
    }

    /** `Directory.CreateDirectory(path)`. */
    method CreateDirectory(path: string)
      modifies this
      ensures dirs == old(dirs) + {DirKey(path)} && files == old(files)
      ensures DirectoryExists(path)
    {
      dirs := dirs + {DirKey(path)};
    }
  }
}
