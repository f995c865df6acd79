/** The syntax trees the SQL parser hands to the proxy: the node kinds the code
    distinguishes, everything else being `Opaque`. */
module SqlAst {
  import opened Prelude

  datatype ValKind = StrVal | IntVal | FloatVal | OtherVal

  datatype Expr =
    | And(left: Expr, right: Expr)
    | Or(left: Expr, right: Expr)
    | Not(expr: Expr)
    | Paren(expr: Expr)
    | Compare(op: string, left: Expr, right: Expr, escape: Option<Expr>)
    | Column(qualifier: string, name: string)
    | Literal(kind: ValKind, text: string)
    | BoolLit(b: bool)
    | Unary(op: string, operand: Expr)
    | Tuple(items: seq<Expr>)
    | Func(name: string, args: seq<Option<Expr>>) // `None` is a `*` argument
    | Opaque(id: nat)

  predicate IsNumber(e: Expr) {
    e.Literal? && (e.kind == IntVal || e.kind == FloatVal)
  }

  predicate IsSignedNumber(e: Expr) {
    e.Unary? && (e.op == "-" || e.op == "+") && IsNumber(e.operand)
  }

  datatype TableRef = TableName(qualifier: string, name: string) | Subquery

  datatype TableExpr = Aliased(expr: TableRef, alias: string, hints: bool) | OtherTable

  datatype SelectExpr =
    | Star(table: string)
    | Projection(expr: Expr, alias: string)
    | OtherSelect

  datatype Limit = Limit(rowcount: Expr, offset: Option<Expr>)

  /** A SELECT; for clauses that only lead to rejection, whether they occur. */
  datatype Select = Select(
    distinct: bool, groupBy: bool, having: bool, orderBy: bool, locking: bool,
    exprs: seq<SelectExpr>, from: seq<TableExpr>, where: Option<Expr>, limit: Option<Limit>)

  /** The call whose printed form is `count(*)`. */
  predicate IsCountStar(e: Expr) {
    e.Func? && EqualFold(e.name, "count") && e.args == [None]
  }
}
