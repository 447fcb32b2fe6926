/** The query language's syntax tree, as the parser builds it (internal/sxq/parser.go). */
module Sxq {
  import opened Wrappers

  datatype Literal = NullLiteral | BoolLiteral(b: bool) | NumberLiteral(text: string) | TextLiteral(text: string)

  /** Offsets are in nanoseconds. */
  datatype Value = Plain(literal: Literal) | Me | Now(offset: int)

  datatype Op = EqOp | NeOp | GtOp | GeOp | LtOp | LeOp | InOp | NotInOp | IsOp | IsNotOp | TildeOp | ColonOp

  datatype Expr =
    | And(left: Expr, right: Expr)
    | Or(left: Expr, right: Expr)
    | Not(inner: Expr)
    | Compare(field: string, op: Op, values: seq<Value>)

  datatype Query = Query(expr: Option<Expr>, order: string, desc: bool)
}
