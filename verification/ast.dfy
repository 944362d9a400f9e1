/** The program tree handed from the parser to the lowering pass.

    The C++ code declares one struct per node kind and uses them as the
    alternatives of one variant; here that variant is one datatype.  A token is
    folded into its text: the backend never reads its line or kind.  A child
    pointer that may be null is an `Option`; a child that the lowering
    dereferences without a null check is a plain `Node`. */
module Ast {
  import opened Strings

  datatype Node =
      /** An integer literal; `value` is its token text. */
    | Number(value: Text)
      /** A variable name. */
    | Identifier(value: Text)
      /** A string literal; `value` is its token text. */
    | StringLiteral(value: Text)
      /** `lhs op rhs`, with `op` the operator token text. */
    | BinOp(lhs: Node, op: Text, rhs: Node)
      /** Sequencing of two statements; either child may be absent. */
    | Statement(first: Option<Node>, rest: Option<Node>)
      /** `lhs comparison rhs`, fields in constructor order. */
    | Condition(lhs: Node, comparison: Text, rhs: Node)
      /** The condition slot holds a `Condition` in every well-formed tree. */
    | If(condition: Node, thenBody: Option<Node>, elseBody: Option<Node>)
    | While(condition: Node, body: Option<Node>)
      /** `kind` is "int" (print `intExpr`) or "string" (print the literal
          `strValue`, or `intExpr` when `strValue` is empty). */
    | Print(kind: Text, intExpr: Option<Node>, strValue: Text)
    | Assignment(name: Text, expression: Node)
      /** Either the list form `int a, b, c;` or the initialised form
          `int x = expr;`; `initExpr` is absent unless given. */
    | Declaration(declType: Text, names: seq<Text>, initExpr: Option<Node>)

  /** The trees the lowering pass is defined on: every `if`/`while`
      condition slot holds a `Condition` (anything else is dereferenced as
      a null pointer), and a print that lowers `intExpr` has one. */
  predicate WellFormed(n: Node)
    decreases n
  {
    match n
    case Statement(a, b) =>
      (a.Some? ==> WellFormed(a.value)) && (b.Some? ==> WellFormed(b.value))
    case If(c, t, e) =>
      c.Condition? && (t.Some? ==> WellFormed(t.value)) && (e.Some? ==> WellFormed(e.value))
    case While(c, b) =>
      c.Condition? && (b.Some? ==> WellFormed(b.value))
    case Print(kind, e, str) =>
      (kind == "string" && str != []) || e.Some?
    case _ => true
  }

  /** `WellFormed` lifted to a nullable child. */
  predicate WellFormedOpt(o: Option<Node>) {
    o.Some? ==> WellFormed(o.value)
  }
}
