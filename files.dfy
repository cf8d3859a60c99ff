/** The filesystem as the engine sees it through `pathlib`: directories list
    their entries, and a source file is seen through what parsing it gives. */
module Files {
  import opened Wrappers
  import opened Syntax

  /** A path as its components; `p + [c]` is `p / c`. */
  type Path = seq<string>

  datatype Entry =
      /** A directory, with the names of its entries in the order the system lists them. */
    | Directory(listing: seq<string>)
      /** A readable file, with the result of parsing its bytes; `None` is a syntax error. */
    | SourceFile(parsed: Option<seq<Stmt>>)

  type FileSystem = map<Path, Entry>

  /** What `open` raises on a path that is not a readable file. */
  datatype OSError = FileNotFound(path: Path) | IsADirectory(path: Path)

  /** `Path.is_dir()` */
  predicate IsDir(fs: FileSystem, p: Path)
  {
    p in fs && fs[p].Directory?
  }

  /** `Path.exists()` */
  predicate Exists(fs: FileSystem, p: Path)
  {
    p in fs
  }

  /** `Path.name`: the last component. */
  function BaseName(p: Path): string
  {
    if |p| == 0 then "" else p[|p| - 1]
  }

  /** `str.rfind(c)`: the last position of `c`, or -1. */
  function LastIndexOf(s: string, c: char): (i: int)
    ensures -1 <= i < |s|
    ensures 0 <= i ==> s[i] == c
    ensures forall k :: i < k < |s| ==> s[k] != c
  {
    if |s| == 0 then -1
    else if s[|s| - 1] == c then |s| - 1
    else LastIndexOf(s[..|s| - 1], c)
  }

  /** Whether a name has a suffix: its last dot is neither its first nor its last character. */
  predicate HasSuffix(name: string)
  {
    var i := LastIndexOf(name, '.');
    0 < i < |name| - 1
  }

  /** `PurePath.suffix` of a name: from the last dot on, or "" when there is none. */
  function Suffix(name: string): string
  {
    if HasSuffix(name) then name[LastIndexOf(name, '.')..] else ""
  }

  /** `PurePath.stem` of a name: the name without its suffix. */
  function Stem(name: string): string
  {
    if HasSuffix(name) then name[..LastIndexOf(name, '.')] else name
  }

  /** Whether a name matches the glob pattern `*.py`. */
  predicate MatchesPy(name: string)
  {
    |name| >= 3 && name[|name| - 3..] == ".py"
  }

  /** The entries of a listing that match `*.py`, in listing order. */
  function FilterPy(names: seq<string>): seq<string>
  {
    if |names| == 0 then []
    else FilterPy(names[..|names| - 1]) + (if MatchesPy(names[|names| - 1]) then [names[|names| - 1]] else [])
  }

  /** `dir.glob("*.py")`, as entry names. */
  function PyFiles(fs: FileSystem, dir: Path): seq<string>
    requires IsDir(fs, dir)
  {
    FilterPy(fs[dir].listing)
  }

  /** The glob keeps exactly the listing entries that match `*.py`. */
  lemma {:induction false} FilterPyMembers(names: seq<string>, n: string)
    ensures n in FilterPy(names) <==> n in names && MatchesPy(n)
  {
    if |names| > 0 {
      var init := names[..|names| - 1];
      FilterPyMembers(init, n);
      assert names == init + [names[|names| - 1]];
    }
  }

  /** A name the glob matches, other than ".py" itself, passes the `.py` suffix
      test, and its stem is the name without the three characters. */
  lemma SuffixOfGlobbed(name: string)
    requires MatchesPy(name) && name != ".py"
    ensures Suffix(name) == ".py" && Stem(name) == name[..|name| - 3]
    ensures Stem(name) + Suffix(name) == name
  {
    var i := LastIndexOf(name, '.');
    assert name[|name| - 3] == '.' && name[|name| - 2] == 'p' && name[|name| - 1] == 'y';
    assert i == |name| - 3;
  }
}
