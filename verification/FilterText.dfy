/** Printing a WHERE clause as a Milvus filter: `scalarFilter`, `filterPair` and
    `filterValue`. Here a `char` is a Unicode scalar value; `printable` stands for
    `strconv.IsPrint` beyond ASCII. */
module FilterText {
  import opened Prelude
  import opened Idents
  import opened SqlAst

  // ------------------------------------------------------------ strconv.Quote

  function HexDigit(d: nat): (c: char)
    requires d < 16
  {
    if d < 10 then ('0' as int + d) as char else ('a' as int + d - 10) as char
  }

  function HexText(n: nat, width: nat): (s: string)
    ensures |s| == width
  {
    if width == 0 then "" else HexText(n / 16, width - 1) + [HexDigit(n % 16)]
  }

  function QuoteChar(c: char, printable: char -> bool): string {
    var n := c as int;
    if c == '"' || c == '\\' then ['\\', c]
    else if 32 <= n < 127 || (n >= 128 && printable(c)) then [c]
    else if n == 7 then "\\a"
    else if n == 8 then "\\b"
    else if n == 12 then "\\f"
    else if n == 10 then "\\n"
    else if n == 13 then "\\r"
    else if n == 9 then "\\t"
    else if n == 11 then "\\v"
    else if n < 128 then "\\x" + HexText(n, 2)
    else if n < 0x1_0000 then "\\u" + HexText(n, 4)
    else "\\U" + HexText(n, 8)
  }

  function QuoteBody(s: string, printable: char -> bool): string {
    if s == "" then "" else QuoteChar(s[0], printable) + QuoteBody(s[1..], printable)
  }

  function Quote(s: string, printable: char -> bool): string {
    ['"'] + QuoteBody(s, printable) + ['"']
  }

  // ------------------------------------------------------------------ filters

  predicate FieldIdentifier(name: string) {
    name != "" && IdentStart(name[0]) && IdentLength(name) == |name|
  }

  function FilterValue(e: Expr, printable: char -> bool): Result<string> {
    match e
    case Column(qualifier, name) =>
      if qualifier == "" && FieldIdentifier(name) then Ok(name) else Err("unsupported WHERE value")
    case Literal(kind, text) =>
      if kind == StrVal then Ok(Quote(text, printable))
      else if kind == IntVal || kind == FloatVal then Ok(text)
      else Err("unsupported WHERE value")
    case BoolLit(b) => Ok(if b then "true" else "false")
    case Unary(op, operand) =>
      if IsSignedNumber(e) then Ok(op + operand.text) else Err("unsupported WHERE value")
    case _ => Err("unsupported WHERE value")
  }

  predicate IsListLiteral(e: Expr) {
    e.Literal? || e.BoolLit? || e.Unary?
  }

  function ListItem(e: Expr, printable: char -> bool): Result<string> {
    if !IsListLiteral(e) then Err("IN requires literals") else FilterValue(e, printable)
  }

  /** The items of an IN list, in order; the first bad one decides the error. */
  function ListItems(items: seq<Expr>, printable: char -> bool): (r: Result<seq<string>>)
    ensures r.Ok? ==> |r.value| == |items|
  {
    if items == [] then Ok([])
    else match ListItem(items[0], printable)
      case Err(e) => Err(e)
      case Ok(x) =>
        match ListItems(items[1..], printable)
        case Err(e) => Err(e)
        case Ok(xs) => Ok([x] + xs)
  }

  method ListItemsLoop(items: seq<Expr>, printable: char -> bool) returns (r: Result<seq<string>>)
    ensures r == ListItems(items, printable)
  {
    var out: seq<string> := [];
    assert items[0..] == items;
    assert forall xs: seq<string> :: out + xs == xs;
    for k := 0 to |items|
      invariant match ListItems(items[k..], printable)
                case Err(e) => ListItems(items, printable) == Err(e)
                case Ok(xs) => ListItems(items, printable) == Ok(out + xs)
    {
      assert items[k..][1..] == items[k + 1..];
      var item := ListItem(items[k], printable);
      if item.Err? {
        return Err(item.reason);
      }
      var rest := ListItems(items[k + 1..], printable);
      if rest.Ok? { Assoc(out, [item.value], rest.value); }
      out := out + [item.value];
    }
    assert out + [] == out;
    return Ok(out);
  }

  function Join(items: seq<string>): string {
    if items == [] then ""
    else if |items| == 1 then items[0]
    else items[0] + "," + Join(items[1..])
  }

  function FilterIn(op: string, left: Expr, right: Expr, printable: char -> bool): Result<string> {
    match FilterValue(left, printable)
    case Err(e) => Err(e)
    case Ok(l) =>
      if !right.Tuple? then Err("IN requires a literal list")
      else match ListItems(right.items, printable)
        case Err(e) => Err(e)
        case Ok(xs) => Ok(l + " " + op + " [" + Join(xs) + "]")
  }

  /** The Milvus spelling of a comparison operator. */
  function FilterOperator(op: string): string {
    if op == "=" then "==" else if op == "<>" then "!=" else op
  }

  predicate IsComparison(op: string) {
    op == "=" || op == "!=" || op == "<>" || op == "<" || op == "<=" || op == ">" || op == ">="
  }

  function FilterCompare(e: Expr, printable: char -> bool): Result<string>
    requires e.Compare?
  {
    if e.op == "in" || e.op == "not in" then FilterIn(e.op, e.left, e.right, printable)
    else if e.op == "like" && !e.right.Literal? then Err("LIKE requires a string literal")
    else if e.op != "like" && !IsComparison(e.op) then Err("unsupported WHERE operator")
    else if e.escape.Some? then Err("ESCAPE is not supported")
    else match FilterValue(e.left, printable)
      case Err(x) => Err(x)
      case Ok(l) =>
        match FilterValue(e.right, printable)
        case Err(x) => Err(x)
        case Ok(r) => Ok(l + " " + FilterOperator(e.op) + " " + r)
  }

  function ScalarFilter(e: Expr, printable: char -> bool): Result<string> {
    match e
    case And(l, r) => FilterPair(ScalarFilter(l, printable), ScalarFilter(r, printable), "and")
    case Or(l, r) => FilterPair(ScalarFilter(l, printable), ScalarFilter(r, printable), "or")
    case Not(x) => Wrap("not (", ScalarFilter(x, printable))
    case Paren(x) => Wrap("(", ScalarFilter(x, printable))
    case Compare(_, _, _, _) => FilterCompare(e, printable)
    case _ => Err("unsupported WHERE expression")
  }

  function Wrap(open: string, r: Result<string>): Result<string> {
    match r case Err(e) => Err(e) case Ok(x) => Ok(open + x + ")")
  }

  function FilterPair(l: Result<string>, r: Result<string>, op: string): Result<string> {
    match l
    case Err(e) => Err(e)
    case Ok(a) =>
      match r
      case Err(e) => Err(e)
      case Ok(b) => Ok("(" + a + " " + op + " " + b + ")")
  }

  // --------------------------------------------------------------- acceptance

  /** A letter or underscore, then letters, digits and underscores. */
  predicate IsFieldName(name: string) {
    && name != "" && (IsLetter(name[0]) || name[0] == '_')
    && forall k :: 0 <= k < |name| ==> IsLetter(name[k]) || IsDigit(name[k]) || name[k] == '_'
  }

  lemma FieldNames(name: string)
    ensures FieldIdentifier(name) <==> IsFieldName(name)
  {
    if IsFieldName(name) { WordRun(name); }
  }

  /** What can stand on a side of a comparison: an unqualified field, a string, a
      truth value, or a number, signed or not. */
  predicate PlainOperand(e: Expr) {
    match e
    case Column(qualifier, name) => qualifier == "" && IsFieldName(name)
    case Literal(kind, _) => kind == StrVal || kind == IntVal || kind == FloatVal
    case BoolLit(_) => true
    case Unary(op, x) => (op == "-" || op == "+") && x.Literal? && (x.kind == IntVal || x.kind == FloatVal)
    case _ => false
  }

  /** The WHERE expressions that have a filter, told by their syntax tree alone. */
  predicate Compilable(e: Expr) {
    match e
    case And(l, r) => Compilable(l) && Compilable(r)
    case Or(l, r) => Compilable(l) && Compilable(r)
    case Not(x) => Compilable(x)
    case Paren(x) => Compilable(x)
    case Compare(op, l, r, escape) =>
      if op == "in" || op == "not in" then
        PlainOperand(l) && r.Tuple? && forall k :: 0 <= k < |r.items| ==> PlainOperand(r.items[k]) && !r.items[k].Column?
      else
        && op in {"=", "!=", "<>", "<", "<=", ">", ">=", "like"}
        && (op == "like" ==> r.Literal?) && escape.None?
        && PlainOperand(l) && PlainOperand(r)
    case _ => false
  }

  lemma OperandAccepted(e: Expr, printable: char -> bool)
    ensures FilterValue(e, printable).Ok? <==> PlainOperand(e)
  {
    hide FieldIdentifier, IsFieldName, Quote;
    if e.Column? { FieldNames(e.name); }
  }

  lemma {:induction false} ItemsAccepted(items: seq<Expr>, printable: char -> bool)
    ensures (ListItems(items, printable).Ok?
             <==> forall k :: 0 <= k < |items| ==> PlainOperand(items[k]) && !items[k].Column?)
  {
    hide FilterValue, PlainOperand;
    if items != [] {
      OperandAccepted(items[0], printable);
      ItemAccepted(items[0], printable);
      ItemsAccepted(items[1..], printable);
      assert forall k :: 1 <= k < |items| ==> items[k] == items[1..][k - 1];
      assert forall k :: 0 <= k < |items[1..]| ==> items[1..][k] == items[k + 1];
    }
  }

  lemma ItemAccepted(e: Expr, printable: char -> bool)
    ensures ListItem(e, printable).Ok? <==> PlainOperand(e) && !e.Column?
  {
    hide IsFieldName, FilterValue;
    OperandAccepted(e, printable);
  }

  lemma CompareAccepted(e: Expr, printable: char -> bool)
    requires e.Compare?
    ensures ScalarFilter(e, printable).Ok? <==> Compilable(e)
  {
    hide FilterValue, PlainOperand, ListItems, Join;
    OperandAccepted(e.left, printable);
    OperandAccepted(e.right, printable);
    if e.right.Tuple? { ItemsAccepted(e.right.items, printable); }
  }

  /** Exactly the compilable expressions are compiled. */
  lemma {:induction false} CompilesExactly(e: Expr, printable: char -> bool)
    ensures ScalarFilter(e, printable).Ok? <==> Compilable(e)
  {
    hide FilterCompare, PlainOperand;
    match e
    case And(l, r) =>
      CompilesExactly(l, printable);
      CompilesExactly(r, printable);
    case Or(l, r) =>
      CompilesExactly(l, printable);
      CompilesExactly(r, printable);
    case Not(x) => CompilesExactly(x, printable);
    case Paren(x) => CompilesExactly(x, printable);
    case Compare(_, _, _, _) => CompareAccepted(e, printable);
    case _ =>
  }
}
