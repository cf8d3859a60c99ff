/** The part of a parsed Python module the engine looks at: its top-level
    statements, reduced to the kinds it distinguishes. */
module Syntax {

  /** An expression: a list display, a constant (as `str()` renders it), or anything else. */
  datatype Expr = ListLit(elts: seq<Expr>) | Const(value: string) | OtherE

  /** An assignment target: a plain identifier, or anything else (tuple, attribute, subscript). */
  datatype Target = NameT(id: string) | OtherT

  /** A top-level statement: `t1 = t2 = ... = value`, `def name`, `class name`, or any other statement. */
  datatype Stmt =
    | Assign(targets: seq<Target>, value: Expr)
    | FunctionDef(name: string)
    | ClassDef(name: string)
    | Other
}
