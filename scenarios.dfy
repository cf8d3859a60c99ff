/** Concrete files, with the model's result on each proved: the cases the engine's callers rely on. */
module Scenarios {
  import opened Wrappers
  import opened Defs
  import opened Syntax
  import opened ParseSpec
  import opened ParseProperties

  /** `def foo(): ...`, `class Bar: ...`, `_hidden = 1` */
  const DECLARATIONS: seq<Stmt> := [FunctionDef("foo"), ClassDef("Bar"), Assign([NameT("_hidden")], Const("1"))]

  /** `__all__ = ["foo"]` */
  const EXPORT_FOO: Stmt := Assign([NameT(ALL_NAME)], ListLit([Const("foo")]))

  /** With `__all__ = ["foo"]` the file exports `foo` alone. */
  lemma ExportListScenario(underlined: bool)
    ensures SourceNames(Some(DECLARATIONS + [EXPORT_FOO]), "m", "p", Source(0), false, underlined)
         == [Name("foo", "m", "p", 0)]
  {
    var ss := DECLARATIONS + [EXPORT_FOO];
    assert ExportList(ss[3]).Some?;
    ValidAllWins(ss, 3, "m", "p", Source(0), false, underlined);
  }

  /** Without it, and without `underlined`, `foo` and `Bar` but not `_hidden`. */
  lemma PrivacyScenario()
    ensures SourceNames(Some(DECLARATIONS), "m", "p", Source(0), false, false)
         == [Name("foo", "m", "p", 0), Name("Bar", "m", "p", 0)]
  {
    CollectedDeclarations();
    PublicSnoc([], "foo", false);
    assert [] + ["foo"] == ["foo"];
    PublicSnoc(["foo"], "Bar", false);
    assert ["foo"] + ["Bar"] == ["foo", "Bar"];
    PublicSnoc(["foo", "Bar"], "_hidden", false);
    assert ["foo", "Bar"] + ["_hidden"] == ["foo", "Bar", "_hidden"];
  }

  /** With `underlined`, all three. */
  lemma UnderlinedScenario()
    ensures SourceNames(Some(DECLARATIONS), "m", "p", Source(0), false, true)
         == [Name("foo", "m", "p", 0), Name("Bar", "m", "p", 0), Name("_hidden", "m", "p", 0)]
  {
    CollectedDeclarations();
    UnderlinedKeepsAll(DECLARATIONS, "m", "p", Source(0));
  }

  /** A tuple-valued `__all__ = ("foo",)` is not a list display: it is skipped
      and the other declarations are scanned. */
  lemma TupleAllScenario()
    ensures SourceNames(Some(DECLARATIONS + [Assign([NameT(ALL_NAME)], OtherE)]), "m", "p", Source(0), false, false)
         == [Name("foo", "m", "p", 0), Name("Bar", "m", "p", 0)]
  {
    MalformedAllSkipped(DECLARATIONS, [], OtherE, "m", "p", Source(0), false, false);
    assert DECLARATIONS + [Assign([NameT(ALL_NAME)], OtherE)] + [] == DECLARATIONS + [Assign([NameT(ALL_NAME)], OtherE)];
    assert DECLARATIONS + [] == DECLARATIONS;
    PrivacyScenario();
  }

  /** Helper: the names the three declarations contribute. */
  lemma CollectedDeclarations()
    ensures Collected(DECLARATIONS) == ["foo", "Bar", "_hidden"]
    ensures FirstExport(DECLARATIONS).None?
  {
    var ss := DECLARATIONS;
    assert ss[..0] == [];
    ScanSnoc(ss, 0);
    ScanSnoc(ss, 1);
    ScanSnoc(ss, 2);
    assert StmtNames(ss[2]) == ["_hidden"] by {
      assert [NameT("_hidden")][..0] == [];
    }
    assert ss[..3] == ss;
  }
}
