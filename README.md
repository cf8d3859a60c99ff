# Name discovery for rope's autoimport, modelled in Dafny

rope's autoimport keeps a database of importable names. Each name is a
record `(name, modname, package, source)`. This project models the engine in
`rope/contrib/autoimport/parse.py` that finds those names and proves what it returns:

- **get_names** reads a module path. A directory is read through its
  `__init__.py` export list, or else through each `*.py` file beside it. A
  `.py` file is read directly.
- **parse_all** turns an `__all__ = [...]` assignment into records.
- **get_names_from_file** scans a parsed file's top-level statements. It
  collects assignments, functions and classes, and lets the first valid
  `__all__` win.
- **find_all_names_in_package** sorts a package by kind and chooses which
  modules to scan.
- **get_names_from_compiled** reflects over a module that is imported
  instead of parsed.

How the model is laid out:

- `wrappers.dfy`: `Option` and `Result`. `JoinAll` models a loop of
  `list.extend` calls, and an exception in any step ends the loop.
- `defs.dfy`: the `Name` record, `Source` and `PackageType`.
- `syntax.dfy`: the parts of a Python syntax tree the scan inspects.
- `files.dfy`: the filesystem as `pathlib` shows it. This covers
  `is_dir`, `exists`, `name`, `suffix`, `stem` and `glob("*.py")`.
- `parse_spec.dfy`: one function per operation, stating what it returns.
  - `SourceNames` and `FileNames` for get_names_from_file.
  - `ModuleNames` for get_names.
  - `PackageNames` for find_all_names_in_package.
  - `CompiledNames` for get_names_from_compiled.
- `parse.dfy`: the five operations as methods with their loops. Each
  method is proved to return its specification function's value.
- `parse_properties.dfy`: what the engine promises, proved about those
  functions.
- `scenarios.dfy`: concrete files, with the model's result on each proved.

Inputs the engine gets from the world are plain values here:

- The filesystem is a map from paths to directory listings and parsed files.
- A syntax error is a parsed file with value `None`.
- The four `utils` helpers are one `PackageProbe` value.
- The outcome of `import_module` plus `inspect.getmembers` is one
  `Option<Module>`.
- An exception that escapes a function is an `Err`.

Quirks of parse.py that the model keeps:

- **Submodule filter.** The recursive package scan skips a submodule when
  `underlined` is set, or when its dotted name contains `_` anywhere
  (parse.py:159). The docstring at parse.py:142-143 says `underlined`
  includes underlined directories. The code does the opposite, and the model keeps what the
  code does (`UnderlinedKeepsNoSubmodule`, `UnderlinedRecursiveFindsNothing`).
- **Malformed `__all__`.** An `__all__` that parse_all cannot read, such as
  a tuple or a list holding a non-constant, is skipped without a message.
  Scanning then continues (`MalformedAllSkipped`).
- **Unreadable files.** An entry matched by `*.py` that cannot be opened
  (for example a directory) raises out of get_names
  (`SiblingUnreadableRaises`).
- **`__init__.py` is globbed twice.** The glob also matches the
  initializer, so it is scanned a second time as module `modname.__init__`
  (`InitFileGlobbed`).

## Model

| member | source | states |
|---|---|---|
| Parse.GetNames | rope/contrib/autoimport/parse.py:22-61 | returns `ModuleNames`, covering the initializer's export list, then the glob loop in listing order, the `.py` suffix and every other path |
| Parse.GlobNames | rope/contrib/autoimport/parse.py:45-56 | extends with each `*.py` entry's names under `modname.stem`, in listing order, and the first entry that cannot be read raises |
| Parse.ParseAll | rope/contrib/autoimport/parse.py:64-79 | succeeds exactly when the value is a list display of constants, and then gives one record per constant, in order, with the caller's module, package and source |
| Parse.GetNamesFromFile | rope/contrib/autoimport/parse.py:82-124 | returns `FileNames`: an error when the path is not a file, [] on a syntax error, the first valid `__all__`, [] under `only_all`, otherwise the visible collected names in statement order |
| Parse.ScanModule | rope/contrib/autoimport/parse.py:104-124 | returns `SourceNames` for the parsed statements: the first valid export list, or the visible collected names unless `only_all` is set |
| Parse.StatementNames | rope/contrib/autoimport/parse.py:106-118 | one statement: its export list exactly when it declares one, otherwise the names it contributes |
| Parse.AssignmentNames | rope/contrib/autoimport/parse.py:107-116 | returns the export list exactly when the assignment declares a valid `__all__`, otherwise the plain identifiers of its targets other than `__all__` |
| Parse.AppendVisible | rope/contrib/autoimport/parse.py:119-121 | appends one record per name that passes the privacy test, in order, after the existing results |
| Parse.FindAllNamesInPackage | rope/contrib/autoimport/parse.py:127-169 | returns `PackageNames`: [] for an unrecognised path or a compiled package, otherwise the in-order concatenation of get_names over the chosen modules |
| Parse.NamesOfModules | rope/contrib/autoimport/parse.py:164-169 | the extend loop over the chosen modules, where the first module that raises ends it |
| Parse.GetNamesFromCompiled | rope/contrib/autoimport/parse.py:172-211 | an import is attempted exactly when the module is not denied, and the result is `CompiledNames` |
| Files.LastIndexOf | rope/contrib/autoimport/parse.py:57 | the last position of the character, or -1 when it does not occur; this is the basis of `Path.suffix` |
| Files.FilterPyMembers | rope/contrib/autoimport/parse.py:46 | the `*.py` glob keeps exactly the listed entries whose names end in `.py` |
| Files.SuffixOfGlobbed | rope/contrib/autoimport/parse.py:46-50 | a globbed name other than `.py` has suffix `.py`, and its stem is the name without it |
| Wrappers.JoinAllSnoc | rope/contrib/autoimport/parse.py:46-55 | one more step of an extend loop: the error so far, this step's error, or both lists joined |
| Wrappers.JoinAllErrPersists | rope/contrib/autoimport/parse.py:165-168 | once a step has raised, the later steps change nothing |
| Wrappers.JoinAllFirstErr | rope/contrib/autoimport/parse.py:165-168 | the exception that escapes is that of the first step that raises |
| Wrappers.JoinAllOk | rope/contrib/autoimport/parse.py:165-168 | when no step raises, the result is every step's list concatenated in order |
| Wrappers.JoinAllOkPrefix | rope/contrib/autoimport/parse.py:46-55 | steps that do not raise leave a successful result |
| Wrappers.JoinAllAppend | rope/contrib/autoimport/parse.py:164-169 | extending over two runs of steps equals combining the two runs' results |
| ParseSpec.RecordsAppend | rope/contrib/autoimport/parse.py:121 | the records of two name lists are the two record lists joined |
| ParseSpec.PublicSnoc | rope/contrib/autoimport/parse.py:119-121 | one more name passes the filter exactly when it is visible |
| ParseSpec.VisibleRecordsSnoc | rope/contrib/autoimport/parse.py:119-121 | the visible records of one more name gain that name's record exactly when it passes the privacy test |
| ParseSpec.PublicAppend | rope/contrib/autoimport/parse.py:119-121 | the privacy filter distributes over concatenation |
| ParseSpec.ScanSnoc | rope/contrib/autoimport/parse.py:105-118 | one more statement adds its names to those collected, and the first export list so far stays first |
| ParseSpec.ScanStep | rope/contrib/autoimport/parse.py:105-121 | a statement with no export list keeps the scan's invariant: the results are the visible records of what has been collected so far |
| ParseSpec.ScanFound | rope/contrib/autoimport/parse.py:111-112 | at the first statement declaring an export list, that list is the file's result |
| ParseSpec.FirstExportExtends | rope/contrib/autoimport/parse.py:111-112 | an export list found in a prefix is the file's answer whatever follows it |
| ParseProperties.ExportListIffValidAll | rope/contrib/autoimport/parse.py:107-112 | a statement declares an export list exactly when it assigns a list of constants to the plain name `__all__` |
| ParseProperties.NoExportInPrefix | rope/contrib/autoimport/parse.py:105-112 | a prefix with no declaring statement has no export list |
| ParseProperties.FirstExportIsFirst | rope/contrib/autoimport/parse.py:105-112 | the file has an export list exactly when some statement declares one, and it is the first such statement's list |
| ParseProperties.NoExportUpTo | rope/contrib/autoimport/parse.py:105-112 | in a file without an export list, no statement declares one |
| ParseProperties.FirstExporter | rope/contrib/autoimport/parse.py:105-112 | a file with an export list has a statement that declares it |
| ParseProperties.CollectedAppend | rope/contrib/autoimport/parse.py:105-118 | the names collected from two runs of statements are the two collections joined |
| ParseProperties.FirstExportAppend | rope/contrib/autoimport/parse.py:105-112 | the export list of two runs of statements is the first run's, when it has one, and otherwise the second's |
| ParseProperties.TargetNamesMembers | rope/contrib/autoimport/parse.py:108-116 | an assignment contributes exactly its plain identifier targets other than `__all__` |
| ParseProperties.CollectedMembers | rope/contrib/autoimport/parse.py:105-118 | a name is collected exactly when some top-level statement contributes it |
| ParseProperties.PublicMembers | rope/contrib/autoimport/parse.py:119-121 | a name survives the filter exactly when it is in the list and `underlined or not name.startswith("_")` holds |
| ParseProperties.PublicUnderlined | rope/contrib/autoimport/parse.py:120 | with `underlined` set, the filter keeps every name in order |
| ParseProperties.ValidAllWins | rope/contrib/autoimport/parse.py:111-112 | with a valid `__all__`, the result is exactly its constants in order, whatever `only_all` and `underlined` are |
| ParseProperties.MalformedAllSkipped | rope/contrib/autoimport/parse.py:109-116 | an `__all__` assignment that is not a list of constants changes nothing: the result is that of the file without it |
| ParseProperties.SkippedStatement | rope/contrib/autoimport/parse.py:109-116 | alone, a malformed `__all__` assignment has no export list and contributes no name |
| ParseProperties.PrivateNamesDropped | rope/contrib/autoimport/parse.py:119-124 | without a valid `__all__` and without `underlined`, no name starting with `_` is returned, and without `only_all` every collected public name is returned |
| ParseProperties.UnderlinedKeepsAll | rope/contrib/autoimport/parse.py:119-124 | without a valid `__all__`, `underlined` returns every collected name in order |
| ParseProperties.OnlyAllNeedsExport | rope/contrib/autoimport/parse.py:122-123 | without a valid `__all__`, `only_all` gives [] |
| ParseProperties.SyntaxErrorGivesNothing | rope/contrib/autoimport/parse.py:98-103 | a file that does not parse gives [] and raises nothing |
| ParseProperties.InitExportWins | rope/contrib/autoimport/parse.py:35-44 | a directory whose initializer declares a non-empty valid `__all__` gives exactly those names, and the glob is not run |
| ParseProperties.SiblingsConcatenated | rope/contrib/autoimport/parse.py:45-56 | otherwise it gives the names of each `*.py` file under `modname.stem`, concatenated in listing order |
| ParseProperties.SiblingUnreadableRaises | rope/contrib/autoimport/parse.py:45-56 | the first globbed entry that is not a readable file raises out of get_names |
| ParseProperties.EmptyAllFallsThrough | rope/contrib/autoimport/parse.py:43-45 | an initializer whose `__all__` is the empty list does not stop the glob |
| ParseProperties.InitFileGlobbed | rope/contrib/autoimport/parse.py:46-50 | the glob also matches `__init__.py`, under stem `__init__` |
| ParseProperties.PyPathScanned | rope/contrib/autoimport/parse.py:57-60 | a path that is not a directory and has suffix `.py` gives that file's names, read with `only_all` unset |
| ParseProperties.OtherPathGivesNothing | rope/contrib/autoimport/parse.py:57-61 | a path that is neither a directory nor a `.py` file gives [] |
| ParseProperties.UnrecognizedOrCompiledGivesNothing | rope/contrib/autoimport/parse.py:145-155 | an unrecognised path and a compiled package give [] |
| ParseProperties.SingleModuleScanned | rope/contrib/autoimport/parse.py:152-153 | a single-file package, and a directory package scanned without recursion, give get_names of the package path under the package name |
| ParseProperties.KeptSubmodulesExact | rope/contrib/autoimport/parse.py:156-161 | the recursive scan keeps a submodule, under its dotted name, exactly when `underlined` is unset and the name contains no `_` |
| ParseProperties.UnderlinedKeepsNoSubmodule | rope/contrib/autoimport/parse.py:159-160 | with `underlined` set, no submodule is kept |
| ParseProperties.UnderlinedRecursiveFindsNothing | rope/contrib/autoimport/parse.py:156-169 | a recursive scan of a directory package with `underlined` set gives [] |
| ParseProperties.ModulesConcatenated | rope/contrib/autoimport/parse.py:164-169 | find_all_names_in_package's result over two runs of modules is the two results combined in order |
| ParseProperties.DeniedGivesNothing | rope/contrib/autoimport/parse.py:190-192 | `builtins`, `python_crun` and, without `underlined`, an underscored name give [], whatever the import would give |
| ParseProperties.ImportFailureGivesNothing | rope/contrib/autoimport/parse.py:194-198 | a module whose import fails gives [] |
| ParseProperties.ModuleAllUnfiltered | rope/contrib/autoimport/parse.py:199-201 | a module with `__all__` gives exactly those names, unfiltered, under the package's name |
| ParseProperties.ReflectedNamesMembers | rope/contrib/autoimport/parse.py:203-210 | reflection keeps a member name exactly when it is visible and the member is a class, function or builtin |
| ParseProperties.ReflectedMembersFiltered | rope/contrib/autoimport/parse.py:202-210 | a loaded module without `__all__` gives a record for exactly its kept members |
| Scenarios.ExportListScenario | rope/contrib/autoimport/parse.py:111-112 | `def foo`, `class Bar`, `_hidden = 1`, `__all__ = ["foo"]` give `foo` alone |
| Scenarios.PrivacyScenario | rope/contrib/autoimport/parse.py:117-121 | the same file without `__all__` gives `foo` and `Bar` |
| Scenarios.UnderlinedScenario | rope/contrib/autoimport/parse.py:119-121 | with `underlined` set it also gives `_hidden` |
| Scenarios.TupleAllScenario | rope/contrib/autoimport/parse.py:109-116 | a tuple-valued `__all__` is skipped, and the other names are collected |
| Scenarios.CollectedDeclarations | rope/contrib/autoimport/parse.py:105-118 | the three declarations contribute `foo`, `Bar` and `_hidden`, in order, with no export list |

## Left out

- Reading files and parsing them (`open`, `file.read`, `ast.parse`): a file is given as its parse result. A syntax error is `None`.
- The `print(error)` diagnostic on a syntax error: output only.
- Exceptions other than `open` failing on a missing path or a directory: permission errors, `ValueError` from `ast.parse`, and exceptions other than `ImportError` from an import.
- `import_module` and `inspect.getmembers`: given as the value `Option<Module>`. `None` means `ImportError`. The member order is whatever `getmembers` yields. The members' kinds are given as `MemberKind`.
- The bodies of `get_package_name_from_path`, `get_package_source`, `submodules` and `get_modname_from_path` (in `utils.py`): given as the `PackageProbe` value. utils.py is not part of this model.
- `Source` and `PackageType` from `defs.py`: a source is carried as its integer value. Only the `SINGLE_FILE` and `COMPILED` tags are distinguished by the engine. Every other tag behaves the same and is modelled by `DirectoryPackage`.
- Syntax nodes the scan ignores (`AnnAssign`, `AsyncFunctionDef`, imports and the rest) are one `Other` statement. Assignment targets other than a plain name are one `OtherT`.
- `str(item.value)` and `str(name)`: constants are modelled as the strings they convert to.
- `glob` details: case sensitivity, hidden entries and the order of the listing are taken from the filesystem value as given.
- Storage, ranking and querying of names elsewhere in autoimport: outside this engine.
- Parse.GetNamesFromCompiled: the out-parameter `attempted` is not in the Python function. It records whether the import would be attempted.
