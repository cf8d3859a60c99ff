/** What each function of the name-discovery engine returns, stated as pure
    functions of its inputs. The methods in module Parse are proved to
    compute exactly these values; module ParseProperties proves what the
    engine promises about them. */
module ParseSpec {
  import opened Wrappers
  import opened Defs
  import opened Syntax
  import opened Files

  /** The identifier that declares a module's explicit export list. */
  const ALL_NAME: string := "__all__"
  /** The initializer file of a directory package. */
  const INIT_FILE: string := "__init__.py"
  /** Modules never imported for reflection: `builtins` needs no import,
      `python_crun` crashes the interpreter. */
  const BANNED: seq<string> := ["builtins", "python_crun"]

  /** One record per name, in order, all with the same module, package and provenance. */
  function Records(ns: seq<string>, modname: string, package: string, source: int): seq<Name>
  {
    seq(|ns|, k requires 0 <= k < |ns| => Name(ns[k], modname, package, source))
  }

  /** `s.startswith("_")` */
  predicate Underlined(s: string)
  {
    |s| > 0 && s[0] == '_'
  }

  /** The privacy test `underlined or not name.startswith("_")`. */
  predicate Visible(s: string, underlined: bool)
  {
    underlined || !Underlined(s)
  }

  /** The names that pass the privacy test, in order. */
  function Public(ns: seq<string>, underlined: bool): seq<string>
  {
    if |ns| == 0 then []
    else Public(ns[..|ns| - 1], underlined) + (if Visible(ns[|ns| - 1], underlined) then [ns[|ns| - 1]] else [])
  }

  /** Records of two lists, one after the other. */
  lemma RecordsAppend(a: seq<string>, b: seq<string>, modname: string, package: string, source: int)
    ensures Records(a + b, modname, package, source) == Records(a, modname, package, source) + Records(b, modname, package, source)
  {
  }

  /** The privacy filter on one more name. */
  lemma PublicSnoc(ns: seq<string>, n: string, underlined: bool)
    ensures Public(ns + [n], underlined) == Public(ns, underlined) + (if Visible(n, underlined) then [n] else [])
  {
    assert (ns + [n])[..|ns|] == ns;
  }

  /** The records of the visible names of a list, one name further. */
  lemma VisibleRecordsSnoc(ns: seq<string>, k: nat, underlined: bool, modname: string, package: string, source: int)
    requires k < |ns|
    ensures Records(Public(ns[..k + 1], underlined), modname, package, source)
         == Records(Public(ns[..k], underlined), modname, package, source)
            + (if Visible(ns[k], underlined) then [Name(ns[k], modname, package, source)] else [])
  {
    assert ns[..k + 1] == ns[..k] + [ns[k]];
    PublicSnoc(ns[..k], ns[k], underlined);
    RecordsAppend(Public(ns[..k], underlined), if Visible(ns[k], underlined) then [ns[k]] else [], modname, package, source);
  }

  /** The privacy filter distributes over concatenation. */
  lemma {:induction false} PublicAppend(a: seq<string>, b: seq<string>, underlined: bool)
    ensures Public(a + b, underlined) == Public(a, underlined) + Public(b, underlined)
  {
    if |b| > 0 {
      var binit := b[..|b| - 1];
      assert a + b == (a + binit) + [b[|b| - 1]];
      PublicAppend(a, binit, underlined);
      PublicSnoc(a + binit, b[|b| - 1], underlined);
      PublicSnoc(binit, b[|b| - 1], underlined);
      assert b == binit + [b[|b| - 1]];
    } else {
      assert a + b == a;
    }
  }

  // ---------------------------------------------------------------- one file

  /** The only shape of `__all__` value that parse_all accepts: a list display of constants. */
  predicate IsStringList(e: Expr)
  {
    e.ListLit? && forall x :: x in e.elts ==> x.Const?
  }

  /** The export list an `__all__` value declares, or `None` where parse_all's assertions fail. */
  function AllList(e: Expr): Option<seq<string>>
  {
    if IsStringList(e) then Some(seq(|e.elts|, k requires 0 <= k < |e.elts| => e.elts[k].value)) else None
  }

  /** The identifiers an assignment's targets contribute, in target order:
      every plain identifier except `__all__`. */
  function TargetNames(ts: seq<Target>): seq<string>
  {
    if |ts| == 0 then []
    else
      TargetNames(ts[..|ts| - 1]) +
      match ts[|ts| - 1]
      case NameT(id) => if id == ALL_NAME then [] else [id]
      case OtherT => []
  }

  /** The names one top-level statement contributes when no export list applies. */
  function StmtNames(s: Stmt): seq<string>
  {
    match s
    case Assign(ts, _) => TargetNames(ts)
    case FunctionDef(n) => [n]
    case ClassDef(n) => [n]
    case Other => []
  }

  /** The export list a top-level statement declares: an assignment with an
      `__all__` target whose value parse_all accepts. */
  function ExportList(s: Stmt): Option<seq<string>>
  {
    if s.Assign? && NameT(ALL_NAME) in s.targets then AllList(s.value) else None
  }

  /** The export list of the first statement that declares one. */
  function FirstExport(ss: seq<Stmt>): Option<seq<string>>
  {
    if |ss| == 0 then None
    else if FirstExport(ss[..|ss| - 1]).Some? then FirstExport(ss[..|ss| - 1])
    else ExportList(ss[|ss| - 1])
  }

  /** The names all statements contribute, in statement order. */
  function Collected(ss: seq<Stmt>): seq<string>
  {
    if |ss| == 0 then [] else Collected(ss[..|ss| - 1]) + StmtNames(ss[|ss| - 1])
  }

  /** The names get_names_from_file returns for a file that parses to `parsed`. */
  function SourceNames(parsed: Option<seq<Stmt>>, modname: string, package: string, source: Source,
                       onlyAll: bool, underlined: bool): seq<Name>
  {
    match parsed
    case None => []
    case Some(ss) =>
      match FirstExport(ss)
      case Some(all) => Records(all, modname, package, source.value)
      case None =>
        if onlyAll then [] else Records(Public(Collected(ss), underlined), modname, package, source.value)
  }

  /** get_names_from_file on a path: `open` raises unless the path is a file. */
  function FileNames(fs: FileSystem, path: Path, modname: string, package: string, source: Source,
                     onlyAll: bool, underlined: bool): Result<seq<Name>, OSError>
  {
    if path !in fs then Err(FileNotFound(path))
    else match fs[path]
      case Directory(_) => Err(IsADirectory(path))
      case SourceFile(parsed) => Ok(SourceNames(parsed, modname, package, source, onlyAll, underlined))
  }

  /** The scan of get_names_from_file, one statement further. */
  lemma ScanSnoc(ss: seq<Stmt>, i: nat)
    requires i < |ss|
    ensures Collected(ss[..i + 1]) == Collected(ss[..i]) + StmtNames(ss[i])
    ensures FirstExport(ss[..i + 1]) == if FirstExport(ss[..i]).Some? then FirstExport(ss[..i]) else ExportList(ss[i])
  {
    assert ss[..i + 1][..i] == ss[..i];
  }

  /** The invariant of get_names_from_file's statement loop is kept by a
      statement that declares no export list. */
  lemma ScanStep(ss: seq<Stmt>, i: nat, underlined: bool, modname: string, package: string, source: int,
                 before: seq<Name>, after: seq<Name>)
    requires i < |ss| && ExportList(ss[i]).None? && FirstExport(ss[..i]).None?
    requires before == Records(Public(Collected(ss[..i]), underlined), modname, package, source)
    requires after == before + Records(Public(StmtNames(ss[i]), underlined), modname, package, source)
    ensures FirstExport(ss[..i + 1]).None?
    ensures after == Records(Public(Collected(ss[..i + 1]), underlined), modname, package, source)
  {
    ScanSnoc(ss, i);
    PublicAppend(Collected(ss[..i]), StmtNames(ss[i]), underlined);
    RecordsAppend(Public(Collected(ss[..i]), underlined), Public(StmtNames(ss[i]), underlined), modname, package, source);
  }

  /** A first-statement-wins export list stays the answer when statements are added after it. */
  lemma {:induction false} FirstExportExtends(ss: seq<Stmt>, n: nat)
    requires n <= |ss| && FirstExport(ss[..n]).Some?
    ensures FirstExport(ss) == FirstExport(ss[..n])
    decreases |ss| - n
  {
    if n < |ss| {
      var init := ss[..|ss| - 1];
      assert init[..n] == ss[..n];
      FirstExportExtends(init, n);
    } else {
      assert ss[..n] == ss;
    }
  }

  /** The scan ends at the first statement that declares an export list: that list is the file's answer. */
  lemma ScanFound(ss: seq<Stmt>, i: nat, modname: string, package: string, source: Source,
                  onlyAll: bool, underlined: bool)
    requires i < |ss| && FirstExport(ss[..i]).None? && ExportList(ss[i]).Some?
    ensures SourceNames(Some(ss), modname, package, source, onlyAll, underlined)
         == Records(ExportList(ss[i]).value, modname, package, source.value)
  {
    ScanSnoc(ss, i);
    FirstExportExtends(ss, i + 1);
  }

  // ---------------------------------------------------------------- get_names

  /** The per-file steps of the glob loop: each `*.py` entry under module name `modname.stem`. */
  function GlobResults(fs: FileSystem, dir: Path, files: seq<string>, modname: string, package: string,
                       source: Source, underlined: bool): seq<Result<seq<Name>, OSError>>
  {
    seq(|files|, k requires 0 <= k < |files| =>
      FileNames(fs, dir + [files[k]], modname + "." + Stem(files[k]), package, source, false, underlined))
  }

  /** What get_names returns for `modpath`. */
  function ModuleNames(fs: FileSystem, modpath: Path, modname: string, package: string, source: Source,
                       underlined: bool): Result<seq<Name>, OSError>
  {
    if IsDir(fs, modpath) then
      var init := modpath + [INIT_FILE];
      var fromInit := if Exists(fs, init) then FileNames(fs, init, modname, package, source, true, false) else Ok([]);
      if fromInit.Err? || |fromInit.value| > 0 then fromInit
      else JoinAll(GlobResults(fs, modpath, PyFiles(fs, modpath), modname, package, source, underlined))
    else if Suffix(BaseName(modpath)) == ".py" then
      FileNames(fs, modpath, modname, package, source, false, underlined)
    else
      Ok([])
  }

  // ---------------------------------------------------------------- find_all_names_in_package

  /** The helpers from the `utils` module find_all_names_in_package calls, as their
      answers for one package path. */
  datatype PackageProbe = PackageProbe(
    /** `get_package_name_from_path(package_path)`: name and classification, or `None`. */
    packageTuple: Option<(string, PackageType)>,
    /** `get_package_source(package_path)` */
    source: Source,
    /** `submodules(package_path)`, in the order it yields them. */
    submodules: seq<Path>,
    /** `sub` to `get_modname_from_path(sub, package_path)` */
    modnameOf: Path -> string)

  /** The submodule test as written: skip when `underlined` is set or the dotted name contains `_`. */
  predicate KeepSubmodule(modname: string, underlined: bool)
  {
    !(underlined || '_' in modname)
  }

  /** The submodules the recursive scan keeps, each with its dotted name, in order. */
  function KeptSubmodules(subs: seq<Path>, modnameOf: Path -> string, underlined: bool): seq<(Path, string)>
  {
    if |subs| == 0 then []
    else
      var last := subs[|subs| - 1];
      KeptSubmodules(subs[..|subs| - 1], modnameOf, underlined) +
      (if KeepSubmodule(modnameOf(last), underlined) then [(last, modnameOf(last))] else [])
  }

  /** The (path, module name) pairs find_all_names_in_package hands to get_names. */
  function ModulesToScan(packagePath: Path, packageName: string, packageType: PackageType,
                         recursive: bool, underlined: bool, probe: PackageProbe): seq<(Path, string)>
  {
    match packageType
    case SingleFile => [(packagePath, packageName)]
    case Compiled => []
    case DirectoryPackage =>
      if recursive then KeptSubmodules(probe.submodules, probe.modnameOf, underlined)
      else [(packagePath, packageName)]
  }

  /** The per-module steps of find_all_names_in_package's second loop. */
  function ModuleResults(fs: FileSystem, modules: seq<(Path, string)>, packageName: string, source: Source,
                         underlined: bool): seq<Result<seq<Name>, OSError>>
  {
    seq(|modules|, k requires 0 <= k < |modules| =>
      ModuleNames(fs, modules[k].0, modules[k].1, packageName, source, underlined))
  }

  /** What find_all_names_in_package returns. */
  function PackageNames(fs: FileSystem, packagePath: Path, probe: PackageProbe, recursive: bool,
                        packageSource: Option<Source>, underlined: bool): Result<seq<Name>, OSError>
  {
    match probe.packageTuple
    case None => Ok([])
    case Some((packageName, packageType)) =>
      if packageType == Compiled then Ok([])
      else
        var source := if packageSource.Some? then packageSource.value else probe.source;
        JoinAll(ModuleResults(fs, ModulesToScan(packagePath, packageName, packageType, recursive, underlined, probe),
                              packageName, source, underlined))
  }

  // ---------------------------------------------------------------- get_names_from_compiled

  /** What `inspect` says a module member is. */
  datatype MemberKind = ClassKind | FunctionKind | BuiltinKind | DataKind

  /** A module as reflection sees it: its `__all__` if it has one, and
      `inspect.getmembers` as (name, kind) pairs in the order returned. */
  datatype Module = Module(all: Option<seq<string>>, members: seq<(string, MemberKind)>)

  /** The guard that returns before any import is attempted. */
  predicate Denied(package: string, underlined: bool)
  {
    package in BANNED || (Underlined(package) && !underlined)
  }

  /** `isclass or isfunction or isbuiltin` */
  predicate IsCallableKind(k: MemberKind)
  {
    k.ClassKind? || k.FunctionKind? || k.BuiltinKind?
  }

  /** The member names reflection keeps, in member order. */
  function ReflectedNames(members: seq<(string, MemberKind)>, underlined: bool): seq<string>
  {
    if |members| == 0 then []
    else
      var last := members[|members| - 1];
      ReflectedNames(members[..|members| - 1], underlined) +
      (if Visible(last.0, underlined) && IsCallableKind(last.1) then [last.0] else [])
  }

  /** What get_names_from_compiled returns; `imported` is the outcome of
      `import_module(package)`, `None` when it raises ImportError. */
  function CompiledNames(package: string, source: Source, underlined: bool, imported: Option<Module>): seq<Name>
  {
    if Denied(package, underlined) then []
    else match imported
      case None => []
      case Some(m) =>
        match m.all
        case Some(all) => Records(all, package, package, source.value)
        case None => Records(ReflectedNames(m.members, underlined), package, package, source.value)
  }
}
