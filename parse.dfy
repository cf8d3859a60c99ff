/** The name-discovery functions, one method per Python function, each
    building its list with loops and early returns as the original does,
    and each proved to return the value its ParseSpec function describes. */
module Parse {
  import opened Wrappers
  import opened Defs
  import opened Syntax
  import opened Files
  import opened ParseSpec

  /** get_names: a directory's initializer export list, else every `*.py`
      entry's names; a `.py` path's names; nothing for anything else. */
  method GetNames(fs: FileSystem, modpath: Path, modname: string, packageName: string, source: Source,
                  underlined: bool) returns (r: Result<seq<Name>, OSError>)
    ensures r == ModuleNames(fs, modpath, modname, packageName, source, underlined)
  {
    if IsDir(fs, modpath) {
      var init := modpath + [INIT_FILE];
      if Exists(fs, init) {
        var fromInit := GetNamesFromFile(fs, init, modname, packageName, source, true, false);
        if fromInit.Err? || |fromInit.value| > 0 {
          return fromInit;
        }
      }
      r := GlobNames(fs, modpath, PyFiles(fs, modpath), modname, packageName, source, underlined);
      return;
    }
    if Suffix(BaseName(modpath)) == ".py" {
      r := GetNamesFromFile(fs, modpath, modname, packageName, source, false, underlined);
      return;
    }
    return Ok([]);
  }

  /** The `for file in modpath.glob("*.py")` loop of get_names: extend with
      each entry's names under `modname.stem`; the first entry that cannot be
      read raises. */
  method GlobNames(fs: FileSystem, modpath: Path, files: seq<string>, modname: string, packageName: string,
                   source: Source, underlined: bool) returns (r: Result<seq<Name>, OSError>)
    ensures r == JoinAll(GlobResults(fs, modpath, files, modname, packageName, source, underlined))
  {
    ghost var steps := GlobResults(fs, modpath, files, modname, packageName, source, underlined);
    var names: seq<Name> := [];
    var i := 0;
    while i < |files|
      invariant 0 <= i <= |files|
      invariant JoinAll(steps[..i]) == Ok(names)
    {
      var fileNames := GetNamesFromFile(fs, modpath + [files[i]], modname + "." + Stem(files[i]),
                                        packageName, source, false, underlined);
      assert fileNames == steps[i];
      JoinAllSnoc(steps, i);
      if fileNames.Err? {
        JoinAllErrPersists(steps, i + 1);
        return fileNames;
      }
      names := names + fileNames.value;
      i := i + 1;
    }
    assert steps[..i] == steps;
    return Ok(names);
  }

  /** parse_all: the records of an `__all__` assignment's list of constants;
      `None` where one of its assertions fails (an AssertionError). */
  method ParseAll(node: Stmt, modname: string, package: string, source: Source) returns (r: Option<seq<Name>>)
    requires node.Assign?
    ensures r.Some? <==> IsStringList(node.value)
    ensures r.Some? ==>
      && |r.value| == |node.value.elts|
      && forall k :: 0 <= k < |r.value| ==>
           node.value.elts[k].Const? && r.value[k] == Name(node.value.elts[k].value, modname, package, source.value)
    ensures r.Some? ==> r.value == Records(AllList(node.value).value, modname, package, source.value)
  {
    var allResults: seq<Name> := [];
    if !node.value.ListLit? {
      return None;
    }
    var elts := node.value.elts;
    var i := 0;
    while i < |elts|
      invariant 0 <= i <= |elts|
      invariant |allResults| == i
      invariant forall k :: 0 <= k < i ==> elts[k].Const? && allResults[k] == Name(elts[k].value, modname, package, source.value)
    {
      var item := elts[i];
      if !item.Const? {
        return None;
      }
      allResults := allResults + [Name(item.value, modname, package, source.value)];
      i := i + 1;
    }
    assert allResults == Records(AllList(node.value).value, modname, package, source.value);
    return Some(allResults);
  }

  /** get_names_from_file: `open` fails on anything but a file; a syntax error
      gives no names; the first valid `__all__` is the answer; otherwise the
      names of definitions and plain assignment targets that pass the privacy
      test, unless `onlyAll` asks for the export list alone. */
  method GetNamesFromFile(fs: FileSystem, path: Path, modname: string, package: string, source: Source,
                          onlyAll: bool, underlined: bool) returns (r: Result<seq<Name>, OSError>)
    ensures r == FileNames(fs, path, modname, package, source, onlyAll, underlined)
  {
    if path !in fs {
      return Err(FileNotFound(path));
    }
    if fs[path].Directory? {
      return Err(IsADirectory(path));
    }
    var parsed := fs[path].parsed;
    if parsed.None? {
      return Ok([]);
    }
    var names := ScanModule(parsed.value, modname, package, source, onlyAll, underlined);
    r := Ok(names);
  }

  /** The statement loop of get_names_from_file on a file that parsed to `stmts`. */
  method ScanModule(stmts: seq<Stmt>, modname: string, package: string, source: Source,
                    onlyAll: bool, underlined: bool) returns (r: seq<Name>)
    ensures r == SourceNames(Some(stmts), modname, package, source, onlyAll, underlined)
  {
    var results: seq<Name> := [];
    var i := 0;
    while i < |stmts|
      invariant 0 <= i <= |stmts|
      invariant FirstExport(stmts[..i]).None?
      invariant results == Records(Public(Collected(stmts[..i]), underlined), modname, package, source.value)
    {
      var node := stmts[i];
      var all, nodeNames := StatementNames(node, modname, package, source);
      if all.Some? {
        ScanFound(stmts, i, modname, package, source, onlyAll, underlined);
        return all.value;
      }
      ghost var before := results;
      results := AppendVisible(results, nodeNames, underlined, modname, package, source);
      ScanStep(stmts, i, underlined, modname, package, source.value, before, results);
      i := i + 1;
    }
    assert stmts[..i] == stmts;
    assert FirstExport(stmts).None?;
    if onlyAll {
      return [];
    }
    return results;
  }

  /** One top-level statement of get_names_from_file: the export list it
      declares, or else the names it contributes. */
  method StatementNames(node: Stmt, modname: string, package: string, source: Source)
    returns (all: Option<seq<Name>>, nodeNames: seq<string>)
    ensures all.Some? <==> ExportList(node).Some?
    ensures all.Some? ==> all.value == Records(ExportList(node).value, modname, package, source.value)
    ensures all.None? ==> nodeNames == StmtNames(node)
  {
    all := None;
    nodeNames := [];
    match node {
      case Assign(_, _) =>
        all, nodeNames := AssignmentNames(node, modname, package, source);
      case FunctionDef(name) =>
        nodeNames := [name];
      case ClassDef(name) =>
        nodeNames := [name];
      case Other =>
    }
  }

  /** The `for target in node.targets` loop of get_names_from_file: a plain
      `__all__` target whose value parse_all accepts ends the scan with that
      export list; otherwise the plain identifiers other than `__all__`. */
  method AssignmentNames(node: Stmt, modname: string, package: string, source: Source)
    returns (all: Option<seq<Name>>, nodeNames: seq<string>)
    requires node.Assign?
    ensures all.Some? <==> ExportList(node).Some?
    ensures all.Some? ==> all.value == Records(ExportList(node).value, modname, package, source.value)
    ensures all.None? ==> nodeNames == StmtNames(node)
  {
    nodeNames := [];
    var targets := node.targets;
    var j := 0;
    while j < |targets|
      invariant 0 <= j <= |targets|
      invariant nodeNames == TargetNames(targets[..j])
      invariant IsStringList(node.value) ==> NameT(ALL_NAME) !in targets[..j]
    {
      var target := targets[j];
      assert targets[..j + 1][..j] == targets[..j];
      if target.NameT? {
        if target.id == ALL_NAME {
          all := ParseAll(node, modname, package, source);
          if all.Some? {
            return;
          }
        } else {
          nodeNames := nodeNames + [target.id];
        }
      }
      j := j + 1;
    }
    assert targets[..j] == targets;
    all := None;
  }

  /** The `for node_name in node_names` loop of get_names_from_file: append
      the record of every name that passes the privacy test, in order. */
  method AppendVisible(results: seq<Name>, nodeNames: seq<string>, underlined: bool, modname: string,
                       package: string, source: Source) returns (r: seq<Name>)
    ensures r == results + Records(Public(nodeNames, underlined), modname, package, source.value)
  {
    r := results;
    var k := 0;
    while k < |nodeNames|
      invariant 0 <= k <= |nodeNames|
      invariant r == results + Records(Public(nodeNames[..k], underlined), modname, package, source.value)
    {
      var nodeName := nodeNames[k];
      VisibleRecordsSnoc(nodeNames, k, underlined, modname, package, source.value);
      ghost var kept := Records(Public(nodeNames[..k], underlined), modname, package, source.value);
      if Visible(nodeName, underlined) {
        assert results + kept + [Name(nodeName, modname, package, source.value)]
            == results + (kept + [Name(nodeName, modname, package, source.value)]);
        r := r + [Name(nodeName, modname, package, source.value)];
      }
      k := k + 1;
    }
    assert nodeNames[..k] == nodeNames;
  }

  /** find_all_names_in_package: nothing for an unrecognised or compiled
      package; otherwise the names of each module to scan, in order. */
  method FindAllNamesInPackage(fs: FileSystem, packagePath: Path, probe: PackageProbe, recursive: bool,
                               packageSource: Option<Source>, underlined: bool)
    returns (r: Result<seq<Name>, OSError>)
    ensures r == PackageNames(fs, packagePath, probe, recursive, packageSource, underlined)
  {
    if probe.packageTuple.None? {
      return Ok([]);
    }
    var packageName, packageType := probe.packageTuple.value.0, probe.packageTuple.value.1;
    var source := if packageSource.None? then probe.source else packageSource.value;
    var modules: seq<(Path, string)> := [];
    if packageType == SingleFile {
      modules := modules + [(packagePath, packageName)];
    } else if packageType == Compiled {
      return Ok([]);
    } else if recursive {
      var subs := probe.submodules;
      var i := 0;
      while i < |subs|
        invariant 0 <= i <= |subs|
        invariant modules == KeptSubmodules(subs[..i], probe.modnameOf, underlined)
      {
        var sub := subs[i];
        var modname := probe.modnameOf(sub);
        assert subs[..i + 1][..i] == subs[..i];
        if KeepSubmodule(modname, underlined) {
          modules := modules + [(sub, modname)];
        }
        i := i + 1;
      }
      assert subs[..i] == subs;
    } else {
      modules := modules + [(packagePath, packageName)];
    }
    assert modules == ModulesToScan(packagePath, packageName, packageType, recursive, underlined, probe);
    r := NamesOfModules(fs, modules, packageName, source, underlined);
  }

  /** The second loop of find_all_names_in_package: `result.extend(get_names(...))`
      for each module in order; an exception from get_names escapes. */
  method NamesOfModules(fs: FileSystem, modules: seq<(Path, string)>, packageName: string, source: Source,
                        underlined: bool) returns (r: Result<seq<Name>, OSError>)
    ensures r == JoinAll(ModuleResults(fs, modules, packageName, source, underlined))
  {
    ghost var steps := ModuleResults(fs, modules, packageName, source, underlined);
    var result: seq<Name> := [];
    var j := 0;
    while j < |modules|
      invariant 0 <= j <= |modules|
      invariant JoinAll(steps[..j]) == Ok(result)
    {
      var names := GetNames(fs, modules[j].0, modules[j].1, packageName, source, underlined);
      assert names == steps[j];
      JoinAllSnoc(steps, j);
      if names.Err? {
        JoinAllErrPersists(steps, j + 1);
        return names;
      }
      result := result + names.value;
      j := j + 1;
    }
    assert steps[..j] == steps;
    return Ok(result);
  }

  /** get_names_from_compiled: nothing for a denied module, without importing
      it; nothing when the import fails; the module's `__all__` when it has
      one; otherwise its public classes, functions and builtins.
      `attempted` tells whether `import_module` is called. */
  method GetNamesFromCompiled(package: string, source: Source, underlined: bool, imported: Option<Module>)
    returns (r: seq<Name>, attempted: bool)
    ensures attempted <==> !Denied(package, underlined)
    ensures r == CompiledNames(package, source, underlined, imported)
  {
    if Denied(package, underlined) {
      return [], false;
    }
    var results: seq<Name> := [];
    attempted := true;
    if imported.None? {
      return [], attempted;
    }
    var loaded := imported.value;
    if loaded.all.Some? {
      var all := loaded.all.value;
      var i := 0;
      while i < |all|
        invariant 0 <= i <= |all|
        invariant results == Records(all[..i], package, package, source.value)
      {
        results := results + [Name(all[i], package, package, source.value)];
        i := i + 1;
      }
      assert all[..i] == all;
    } else {
      var members := loaded.members;
      var i := 0;
      while i < |members|
        invariant 0 <= i <= |members|
        invariant results == Records(ReflectedNames(members[..i], underlined), package, package, source.value)
      {
        var name, value := members[i].0, members[i].1;
        assert members[..i + 1][..i] == members[..i];
        if Visible(name, underlined) {
          if IsCallableKind(value) {
            results := results + [Name(name, package, package, source.value)];
          }
        }
        i := i + 1;
      }
      assert members[..i] == members;
    }
    return results, attempted;
  }
}
