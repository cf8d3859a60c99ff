/** What the name-discovery engine promises, proved about the functions of
    ParseSpec that its methods are proved to compute. */
module ParseProperties {
  import opened Wrappers
  import opened Defs
  import opened Syntax
  import opened Files
  import opened ParseSpec

  // ---------------------------------------------------------------- structure of the scan

  /** A statement declares an export list exactly when it is a valid `__all__`
      assignment: `__all__ = [c1, c2, ...]` with constants only, possibly among other targets. */
  lemma ExportListIffValidAll(s: Stmt)
    ensures ExportList(s).Some? <==> s.Assign? && NameT(ALL_NAME) in s.targets && IsStringList(s.value)
  {
  }

  /** Without a valid `__all__` among the first `i` statements, that prefix declares no export list. */
  lemma {:induction false} NoExportInPrefix(ss: seq<Stmt>, i: nat)
    requires i <= |ss|
    requires forall j :: 0 <= j < i ==> ExportList(ss[j]).None?
    ensures FirstExport(ss[..i]).None?
  {
    if i > 0 {
      assert ss[..i][..i - 1] == ss[..i - 1];
      NoExportInPrefix(ss, i - 1);
    }
  }

  /** The export list of a file is that of its first statement declaring one,
      and a file has one exactly when some statement declares one. */
  lemma {:induction false} FirstExportIsFirst(ss: seq<Stmt>)
    ensures FirstExport(ss).Some? <==> exists i :: 0 <= i < |ss| && ExportList(ss[i]).Some?
    ensures forall i :: 0 <= i < |ss| && ExportList(ss[i]).Some? && (forall j :: 0 <= j < i ==> ExportList(ss[j]).None?)
              ==> FirstExport(ss) == ExportList(ss[i])
  {
    forall i | 0 <= i < |ss| && ExportList(ss[i]).Some? && (forall j :: 0 <= j < i ==> ExportList(ss[j]).None?)
      ensures FirstExport(ss) == ExportList(ss[i])
    {
      NoExportInPrefix(ss, i);
      assert ss[..i + 1][..i] == ss[..i];
      FirstExportExtends(ss, i + 1);
    }
    if FirstExport(ss).None? {
      forall i | 0 <= i < |ss| ensures ExportList(ss[i]).None? {
        NoExportUpTo(ss, i);
      }
    } else {
      var i := FirstExporter(ss);
    }
  }

  /** Helper: no statement of a file without an export list declares one. */
  lemma {:induction false} NoExportUpTo(ss: seq<Stmt>, i: nat)
    requires i < |ss| && FirstExport(ss).None?
    ensures ExportList(ss[i]).None?
    decreases |ss|
  {
    var init := ss[..|ss| - 1];
    if i < |ss| - 1 {
      NoExportUpTo(init, i);
    }
  }

  /** Helper: a file with an export list has a statement declaring one. */
  lemma {:induction false} FirstExporter(ss: seq<Stmt>) returns (i: nat)
    requires FirstExport(ss).Some?
    ensures i < |ss| && ExportList(ss[i]).Some?
    decreases |ss|
  {
    var init := ss[..|ss| - 1];
    if FirstExport(init).Some? {
      i := FirstExporter(init);
    } else {
      i := |ss| - 1;
    }
  }

  /** The collected names of two runs of statements, one after the other. */
  lemma {:induction false} CollectedAppend(a: seq<Stmt>, b: seq<Stmt>)
    ensures Collected(a + b) == Collected(a) + Collected(b)
  {
    if |b| == 0 {
      assert a + b == a;
    } else {
      var binit, last := b[..|b| - 1], b[|b| - 1];
      assert (a + b)[..|a + b| - 1] == a + binit;
      assert (a + b)[|a + b| - 1] == last;
      assert Collected(a + b) == Collected(a + binit) + StmtNames(last);
      CollectedAppend(a, binit);
      assert Collected(b) == Collected(binit) + StmtNames(last);
    }
  }

  /** The export list of two runs of statements: the first run's, if it has one. */
  lemma {:induction false} FirstExportAppend(a: seq<Stmt>, b: seq<Stmt>)
    ensures FirstExport(a + b) == if FirstExport(a).Some? then FirstExport(a) else FirstExport(b)
  {
    if |b| == 0 {
      assert a + b == a;
    } else {
      var binit, last := b[..|b| - 1], b[|b| - 1];
      assert (a + b)[..|a + b| - 1] == a + binit;
      assert (a + b)[|a + b| - 1] == last;
      FirstExportAppend(a, binit);
    }
  }

  /** An assignment contributes exactly its plain identifiers other than `__all__`. */
  lemma {:induction false} TargetNamesMembers(ts: seq<Target>, x: string)
    ensures x in TargetNames(ts) <==> NameT(x) in ts && x != ALL_NAME
  {
    if |ts| > 0 {
      var init := ts[..|ts| - 1];
      TargetNamesMembers(init, x);
      assert ts == init + [ts[|ts| - 1]];
    }
  }

  /** A name is collected exactly when some top-level statement contributes it. */
  lemma {:induction false} CollectedMembers(ss: seq<Stmt>, x: string)
    ensures x in Collected(ss) <==> exists i :: 0 <= i < |ss| && x in StmtNames(ss[i])
  {
    if |ss| > 0 {
      var init := ss[..|ss| - 1];
      CollectedMembers(init, x);
      if x in StmtNames(ss[|ss| - 1]) {
        assert 0 <= |ss| - 1 < |ss| && x in StmtNames(ss[|ss| - 1]);
      }
      if exists i :: 0 <= i < |init| && x in StmtNames(init[i]) {
        var i :| 0 <= i < |init| && x in StmtNames(init[i]);
        assert ss[i] == init[i];
      }
      if exists i :: 0 <= i < |ss| && x in StmtNames(ss[i]) {
        var i :| 0 <= i < |ss| && x in StmtNames(ss[i]);
        if i < |ss| - 1 {
          assert init[i] == ss[i];
        }
      }
    }
  }

  // ---------------------------------------------------------------- the privacy filter

  /** A name survives the privacy filter exactly when it is collected and passes the test. */
  lemma {:induction false} PublicMembers(ns: seq<string>, x: string, underlined: bool)
    ensures x in Public(ns, underlined) <==> x in ns && Visible(x, underlined)
  {
    if |ns| > 0 {
      var init := ns[..|ns| - 1];
      PublicMembers(init, x, underlined);
      assert ns == init + [ns[|ns| - 1]];
    }
  }

  /** With `underlined` set, the filter keeps every name, in order. */
  lemma {:induction false} PublicUnderlined(ns: seq<string>)
    ensures Public(ns, true) == ns
  {
    if |ns| > 0 {
      PublicUnderlined(ns[..|ns| - 1]);
      assert ns == ns[..|ns| - 1] + [ns[|ns| - 1]];
    }
  }

  // ---------------------------------------------------------------- get_names_from_file

  /** A valid `__all__` wins: the result is exactly its constants, in order,
      whatever else the file declares and whatever `onlyAll` and `underlined` are. */
  lemma ValidAllWins(ss: seq<Stmt>, i: nat, modname: string, package: string, source: Source,
                     onlyAll: bool, underlined: bool)
    requires i < |ss| && ExportList(ss[i]).Some?
    requires forall j :: 0 <= j < i ==> ExportList(ss[j]).None?
    ensures var r := SourceNames(Some(ss), modname, package, source, onlyAll, underlined);
      && |r| == |ss[i].value.elts|
      && forall k :: 0 <= k < |r| ==> r[k] == Name(ss[i].value.elts[k].value, modname, package, source.value)
  {
    FirstExportIsFirst(ss);
  }

  /** A malformed `__all__` (not a list display of constants) is skipped: the
      file's names are those of the file without that statement. */
  lemma MalformedAllSkipped(pre: seq<Stmt>, post: seq<Stmt>, value: Expr, modname: string, package: string,
                            source: Source, onlyAll: bool, underlined: bool)
    requires !IsStringList(value)
    ensures SourceNames(Some(pre + [Assign([NameT(ALL_NAME)], value)] + post), modname, package, source, onlyAll, underlined)
         == SourceNames(Some(pre + post), modname, package, source, onlyAll, underlined)
  {
    var s := Assign([NameT(ALL_NAME)], value);
    SkippedStatement(value);
    var withS := pre + [s];
    FirstExportAppend(pre, [s]);
    CollectedAppend(pre, [s]);
    assert FirstExport(withS) == FirstExport(pre);
    assert Collected(withS) == Collected(pre);
    FirstExportAppend(withS, post);
    FirstExportAppend(pre, post);
    CollectedAppend(withS, post);
    CollectedAppend(pre, post);
  }

  /** Helper for MalformedAllSkipped: alone, such a statement declares and contributes nothing. */
  lemma SkippedStatement(value: Expr)
    requires !IsStringList(value)
    ensures FirstExport([Assign([NameT(ALL_NAME)], value)]).None?
    ensures Collected([Assign([NameT(ALL_NAME)], value)]) == []
  {
    var s := Assign([NameT(ALL_NAME)], value);
    assert [NameT(ALL_NAME)][..0] == [];
    assert TargetNames([NameT(ALL_NAME)]) == [];
    assert [s][..0] == [];
  }

  /** Without a valid `__all__` and without `underlined`, no returned name
      starts with `_`; every collected name that does not is returned. */
  lemma PrivateNamesDropped(ss: seq<Stmt>, modname: string, package: string, source: Source, onlyAll: bool)
    requires forall i :: 0 <= i < |ss| ==> ExportList(ss[i]).None?
    ensures forall n :: n in SourceNames(Some(ss), modname, package, source, onlyAll, false) ==> !Underlined(n.name)
    ensures !onlyAll ==> forall x :: x in Collected(ss) && !Underlined(x) ==>
              Name(x, modname, package, source.value) in SourceNames(Some(ss), modname, package, source, onlyAll, false)
  {
    FirstExportIsFirst(ss);
    var ps := Public(Collected(ss), false);
    forall x | x in ps ensures !Underlined(x) {
      PublicMembers(Collected(ss), x, false);
    }
    forall x | x in Collected(ss) && !Underlined(x)
      ensures Name(x, modname, package, source.value) in Records(ps, modname, package, source.value)
    {
      PublicMembers(Collected(ss), x, false);
      var k :| 0 <= k < |ps| && ps[k] == x;
      assert Records(ps, modname, package, source.value)[k] == Name(x, modname, package, source.value);
    }
  }

  /** Without a valid `__all__`, `underlined` returns every collected name, in order. */
  lemma UnderlinedKeepsAll(ss: seq<Stmt>, modname: string, package: string, source: Source)
    requires forall i :: 0 <= i < |ss| ==> ExportList(ss[i]).None?
    ensures SourceNames(Some(ss), modname, package, source, false, true) == Records(Collected(ss), modname, package, source.value)
  {
    FirstExportIsFirst(ss);
    PublicUnderlined(Collected(ss));
  }

  /** Without a valid `__all__`, asking for the export list alone gives nothing. */
  lemma OnlyAllNeedsExport(ss: seq<Stmt>, modname: string, package: string, source: Source, underlined: bool)
    requires forall i :: 0 <= i < |ss| ==> ExportList(ss[i]).None?
    ensures SourceNames(Some(ss), modname, package, source, true, underlined) == []
  {
    FirstExportIsFirst(ss);
  }

  /** A file that does not parse gives no names and raises nothing. */
  lemma SyntaxErrorGivesNothing(fs: FileSystem, path: Path, modname: string, package: string, source: Source,
                                onlyAll: bool, underlined: bool)
    requires path in fs && fs[path] == SourceFile(None)
    ensures FileNames(fs, path, modname, package, source, onlyAll, underlined) == Ok([])
  {
  }

  // ---------------------------------------------------------------- get_names

  /** A directory whose initializer declares a non-empty valid `__all__` gives
      exactly that list, under the directory's own module name; no sibling
      file is read. */
  lemma InitExportWins(fs: FileSystem, modpath: Path, modname: string, package: string, source: Source,
                       underlined: bool, ss: seq<Stmt>, i: nat)
    requires IsDir(fs, modpath)
    requires modpath + [INIT_FILE] in fs && fs[modpath + [INIT_FILE]] == SourceFile(Some(ss))
    requires i < |ss| && ExportList(ss[i]).Some? && |ss[i].value.elts| > 0
    requires forall j :: 0 <= j < i ==> ExportList(ss[j]).None?
    ensures ModuleNames(fs, modpath, modname, package, source, underlined).Ok?
    ensures var r := ModuleNames(fs, modpath, modname, package, source, underlined).value;
      && |r| == |ss[i].value.elts|
      && forall k :: 0 <= k < |r| ==> r[k] == Name(ss[i].value.elts[k].value, modname, package, source.value)
  {
    ValidAllWins(ss, i, modname, package, source, true, false);
  }

  /** A directory whose initializer is missing or declares no non-empty export
      list gives, when every `*.py` entry is a readable file, the concatenation
      in listing order of each entry's names under `modname.stem`; the
      initializer itself is one of those entries. */
  lemma SiblingsConcatenated(fs: FileSystem, modpath: Path, modname: string, package: string, source: Source,
                             underlined: bool)
    requires IsDir(fs, modpath)
    requires !Exists(fs, modpath + [INIT_FILE]) || FileNames(fs, modpath + [INIT_FILE], modname, package, source, true, false) == Ok([])
    requires forall f :: f in PyFiles(fs, modpath) ==> modpath + [f] in fs && fs[modpath + [f]].SourceFile?
    ensures var files := PyFiles(fs, modpath);
      ModuleNames(fs, modpath, modname, package, source, underlined) ==
      Ok(Flatten(seq(|files|, k requires 0 <= k < |files| && modpath + [files[k]] in fs && fs[modpath + [files[k]]].SourceFile? =>
        SourceNames(fs[modpath + [files[k]]].parsed, modname + "." + Stem(files[k]), package, source, false, underlined))))
  {
    var files := PyFiles(fs, modpath);
    var steps := GlobResults(fs, modpath, files, modname, package, source, underlined);
    assert forall k :: 0 <= k < |steps| ==> files[k] in files;
    JoinAllOk(steps);
    var vs := seq(|steps|, k requires 0 <= k < |steps| && steps[k].Ok? => steps[k].value);
    var ws := seq(|files|, k requires 0 <= k < |files| && modpath + [files[k]] in fs && fs[modpath + [files[k]]].SourceFile? =>
        SourceNames(fs[modpath + [files[k]]].parsed, modname + "." + Stem(files[k]), package, source, false, underlined));
    assert vs == ws;
  }

  /** The first `*.py` entry, in listing order, that is not a readable file
      makes get_names raise its error: entries after it are not read. */
  lemma SiblingUnreadableRaises(fs: FileSystem, modpath: Path, modname: string, package: string, source: Source,
                                underlined: bool, i: nat)
    requires IsDir(fs, modpath)
    requires !Exists(fs, modpath + [INIT_FILE]) || FileNames(fs, modpath + [INIT_FILE], modname, package, source, true, false) == Ok([])
    requires var files := PyFiles(fs, modpath);
      && i < |files|
      && !(modpath + [files[i]] in fs && fs[modpath + [files[i]]].SourceFile?)
      && forall j :: 0 <= j < i ==> modpath + [files[j]] in fs && fs[modpath + [files[j]]].SourceFile?
    ensures var p := modpath + [PyFiles(fs, modpath)[i]];
      ModuleNames(fs, modpath, modname, package, source, underlined) ==
      Err(if p in fs then IsADirectory(p) else FileNotFound(p))
  {
    var files := PyFiles(fs, modpath);
    JoinAllFirstErr(GlobResults(fs, modpath, files, modname, package, source, underlined), i);
  }

  /** An initializer whose `__all__` is the empty list does not count as an
      export list at directory level: the siblings are scanned. */
  lemma EmptyAllFallsThrough(fs: FileSystem, modpath: Path, modname: string, package: string, source: Source,
                             underlined: bool, ss: seq<Stmt>, i: nat)
    requires IsDir(fs, modpath)
    requires modpath + [INIT_FILE] in fs && fs[modpath + [INIT_FILE]] == SourceFile(Some(ss))
    requires i < |ss| && ExportList(ss[i]).Some? && ss[i].value.elts == []
    requires forall j :: 0 <= j < i ==> ExportList(ss[j]).None?
    ensures ModuleNames(fs, modpath, modname, package, source, underlined) ==
      JoinAll(GlobResults(fs, modpath, PyFiles(fs, modpath), modname, package, source, underlined))
  {
    ValidAllWins(ss, i, modname, package, source, true, false);
  }

  /** The `*.py` glob also matches the initializer, which is then scanned
      again under module name `modname.__init__`. */
  lemma InitFileGlobbed(fs: FileSystem, modpath: Path)
    requires IsDir(fs, modpath) && INIT_FILE in fs[modpath].listing
    ensures INIT_FILE in PyFiles(fs, modpath)
    ensures Stem(INIT_FILE) == "__init__"
  {
    FilterPyMembers(fs[modpath].listing, INIT_FILE);
    SuffixOfGlobbed(INIT_FILE);
    assert INIT_FILE[..|INIT_FILE| - 3] == "__init__";
  }

  /** A path that is not a directory but has suffix `.py` gives that file's names,
      with `only_all` unset and the caller's `underlined`. */
  lemma PyPathScanned(fs: FileSystem, modpath: Path, modname: string, package: string, source: Source,
                      underlined: bool)
    requires !IsDir(fs, modpath) && Suffix(BaseName(modpath)) == ".py"
    ensures ModuleNames(fs, modpath, modname, package, source, underlined)
         == FileNames(fs, modpath, modname, package, source, false, underlined)
  {
  }

  /** A path that is neither a directory nor a `.py` file gives nothing. */
  lemma OtherPathGivesNothing(fs: FileSystem, modpath: Path, modname: string, package: string, source: Source,
                              underlined: bool)
    requires !IsDir(fs, modpath) && Suffix(BaseName(modpath)) != ".py"
    ensures ModuleNames(fs, modpath, modname, package, source, underlined) == Ok([])
  {
  }

  // ---------------------------------------------------------------- find_all_names_in_package

  /** An unrecognised path and a compiled package give nothing. */
  lemma UnrecognizedOrCompiledGivesNothing(fs: FileSystem, packagePath: Path, probe: PackageProbe, recursive: bool,
                                           packageSource: Option<Source>, underlined: bool)
    requires probe.packageTuple.None? || probe.packageTuple.value.1 == Compiled
    ensures PackageNames(fs, packagePath, probe, recursive, packageSource, underlined) == Ok([])
  {
  }

  /** A single-file package, and a directory package scanned without
      recursion, are one module: the package path under the package's name. */
  lemma SingleModuleScanned(fs: FileSystem, packagePath: Path, probe: PackageProbe, recursive: bool,
                            packageSource: Option<Source>, underlined: bool)
    requires probe.packageTuple.Some?
    requires var t := probe.packageTuple.value.1; t == SingleFile || (t == DirectoryPackage && !recursive)
    ensures var name := probe.packageTuple.value.0;
      var source := if packageSource.Some? then packageSource.value else probe.source;
      PackageNames(fs, packagePath, probe, recursive, packageSource, underlined) ==
      ModuleNames(fs, packagePath, name, name, source, underlined)
  {
    var name := probe.packageTuple.value.0;
    var source := if packageSource.Some? then packageSource.value else probe.source;
    var steps := ModuleResults(fs, [(packagePath, name)], name, source, underlined);
    var m := ModuleNames(fs, packagePath, name, name, source, underlined);
    assert steps[0] == m;
    JoinAllSnoc(steps, 0);
    assert steps[..1] == steps;
    if m.Ok? {
      assert [] + m.value == m.value;
    }
  }

  /** The recursive scan keeps a submodule, under its dotted name, exactly
      when `underlined` is not set and that name contains no `_` at all. */
  lemma {:induction false} KeptSubmodulesExact(subs: seq<Path>, modnameOf: Path -> string, underlined: bool,
                                               sub: Path, modname: string)
    ensures (sub, modname) in KeptSubmodules(subs, modnameOf, underlined) <==>
      sub in subs && modname == modnameOf(sub) && !underlined && '_' !in modname
  {
    if |subs| > 0 {
      var init := subs[..|subs| - 1];
      KeptSubmodulesExact(init, modnameOf, underlined, sub, modname);
      assert subs == init + [subs[|subs| - 1]];
    }
  }

  /** With `underlined` set the recursive scan keeps no submodule at all. */
  lemma {:induction false} UnderlinedKeepsNoSubmodule(subs: seq<Path>, modnameOf: Path -> string)
    ensures KeptSubmodules(subs, modnameOf, true) == []
  {
    if |subs| > 0 {
      UnderlinedKeepsNoSubmodule(subs[..|subs| - 1], modnameOf);
    }
  }

  /** Hence a recursive scan of a directory package with `underlined` set finds nothing. */
  lemma UnderlinedRecursiveFindsNothing(fs: FileSystem, packagePath: Path, probe: PackageProbe,
                                        packageSource: Option<Source>)
    requires probe.packageTuple.Some? && probe.packageTuple.value.1 == DirectoryPackage
    ensures PackageNames(fs, packagePath, probe, true, packageSource, true) == Ok([])
  {
    UnderlinedKeepsNoSubmodule(probe.submodules, probe.modnameOf);
  }

  /** find_all_names_in_package's result over two runs of modules, one after the other. */
  lemma ModulesConcatenated(fs: FileSystem, a: seq<(Path, string)>, b: seq<(Path, string)>, packageName: string,
                            source: Source, underlined: bool)
    ensures JoinAll(ModuleResults(fs, a + b, packageName, source, underlined)) ==
      match JoinAll(ModuleResults(fs, a, packageName, source, underlined))
      case Err(e) => Err(e)
      case Ok(xs) =>
        match JoinAll(ModuleResults(fs, b, packageName, source, underlined))
        case Err(e) => Err(e)
        case Ok(ys) => Ok(xs + ys)
  {
    var ra := ModuleResults(fs, a, packageName, source, underlined);
    var rb := ModuleResults(fs, b, packageName, source, underlined);
    assert ModuleResults(fs, a + b, packageName, source, underlined) == ra + rb;
    JoinAllAppend(ra, rb);
  }

  // ---------------------------------------------------------------- get_names_from_compiled

  /** A denied module gives nothing, whatever importing it would give. */
  lemma DeniedGivesNothing(package: string, source: Source, underlined: bool, imported: Option<Module>)
    requires package == "builtins" || package == "python_crun" || (Underlined(package) && !underlined)
    ensures CompiledNames(package, source, underlined, imported) == []
  {
  }

  /** A module whose import fails gives nothing. */
  lemma ImportFailureGivesNothing(package: string, source: Source, underlined: bool)
    ensures CompiledNames(package, source, underlined, None) == []
  {
  }

  /** A module with `__all__` gives exactly those names, unfiltered, with the
      package as both module and package. */
  lemma ModuleAllUnfiltered(package: string, source: Source, underlined: bool, m: Module)
    requires !Denied(package, underlined) && m.all.Some?
    ensures var r := CompiledNames(package, source, underlined, Some(m));
      && |r| == |m.all.value|
      && forall k :: 0 <= k < |r| ==> r[k] == Name(m.all.value[k], package, package, source.value)
  {
  }

  /** The member names reflection keeps are exactly the visible classes,
      functions and builtins. */
  lemma {:induction false} ReflectedNamesMembers(members: seq<(string, MemberKind)>, underlined: bool, x: string)
    ensures x in ReflectedNames(members, underlined) <==>
      Visible(x, underlined) && exists k :: 0 <= k < |members| && members[k].0 == x && IsCallableKind(members[k].1)
  {
    if |members| > 0 {
      var init := members[..|members| - 1];
      ReflectedNamesMembers(init, underlined, x);
      assert members == init + [members[|members| - 1]];
      if exists k :: 0 <= k < |init| && init[k].0 == x && IsCallableKind(init[k].1) {
        var k :| 0 <= k < |init| && init[k].0 == x && IsCallableKind(init[k].1);
        assert members[k] == init[k];
      }
      if exists k :: 0 <= k < |members| && members[k].0 == x && IsCallableKind(members[k].1) {
        var k :| 0 <= k < |members| && members[k].0 == x && IsCallableKind(members[k].1);
        if k < |init| {
          assert init[k] == members[k];
        }
      }
    }
  }

  /** A loaded module without `__all__` gives a record for exactly its members
      that are classes, functions or builtins and pass the privacy test. */
  lemma ReflectedMembersFiltered(package: string, source: Source, underlined: bool, m: Module, n: Name)
    requires !Denied(package, underlined) && m.all.None?
    ensures n in CompiledNames(package, source, underlined, Some(m)) <==>
      && n.modname == package && n.package == package && n.source == source.value
      && Visible(n.name, underlined)
      && exists k :: 0 <= k < |m.members| && m.members[k].0 == n.name && IsCallableKind(m.members[k].1)
  {
    var ns := ReflectedNames(m.members, underlined);
    ReflectedNamesMembers(m.members, underlined, n.name);
    var r := Records(ns, package, package, source.value);
    if n in r {
      var k :| 0 <= k < |r| && r[k] == n;
      assert ns[k] == n.name;
    }
    if n.name in ns && n.modname == package && n.package == package && n.source == source.value {
      var k :| 0 <= k < |ns| && ns[k] == n.name;
      assert r[k] == n;
    }
  }
}
