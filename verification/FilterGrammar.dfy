/** The Milvus filter language, read on its own terms: a lexer, and a
    recursive-descent parser in which `not` binds tighter than `and`, and `and`
    tighter than `or`. */
module FilterGrammar {
  import opened Prelude
  import opened Idents

  datatype FilterToken =
    | Name(name: string)
    | Keyword(word: string)
    | Number(text: string)
    | Text(value: string)
    | Symbol(text: string)

  const KEYWORDS: set<string> := {"and", "or", "not", "in", "like", "true", "false"}

  /** Keywords are not case sensitive. */
  predicate IsKeyword(word: string) {
    ToLower(word) in KEYWORDS
  }

  // -------------------------------------------------------------------- lexer

  /** A token, or `None` for a blank, with the characters it takes. */
  datatype Read = Read(token: Option<FilterToken>, len: nat)

  predicate NumberStart(c: char) {
    IsDigit(c) || c == '.'
  }

  /** Characters of a number: digits, letters, dots, and a sign directly after
      an exponent mark. */
  function NumberLength(s: string, afterExponent: bool): (n: nat)
    ensures n <= |s|
  {
    if s == "" then 0
    else if IdentChar(s[0]) || s[0] == '.' then 1 + NumberLength(s[1..], s[0] == 'e' || s[0] == 'E')
    else if afterExponent && (s[0] == '+' || s[0] == '-') then 1 + NumberLength(s[1..], false)
    else 0
  }

  predicate IsHexDigit(c: char) {
    IsDigit(c) || 'a' <= c <= 'f' || 'A' <= c <= 'F'
  }

  function HexDigitValue(c: char): nat
    requires IsHexDigit(c)
  {
    if IsDigit(c) then c as int - '0' as int
    else if 'a' <= c <= 'f' then c as int - 'a' as int + 10
    else c as int - 'A' as int + 10
  }

  predicate AllHex(s: string) {
    forall k :: 0 <= k < |s| ==> IsHexDigit(s[k])
  }

  function HexValue(s: string): nat
    requires AllHex(s)
  {
    if s == "" then 0 else 16 * HexValue(s[..|s| - 1]) + HexDigitValue(s[|s| - 1])
  }

  predicate IsScalar(n: nat) {
    n < 0xD800 || 0xE000 <= n < 0x11_0000
  }

  /** One character of a quoted string, `s` not being at its closing quote. */
  function UnquoteChar(s: string): (r: Option<(char, nat)>)
    requires s != ""
    ensures r.Some? ==> 1 <= r.value.1 <= |s|
  {
    if s[0] != '\\' then Some((s[0], 1))
    else if |s| == 1 then None
    else match s[1]
      case 'a' => Some((7 as char, 2))
      case 'b' => Some((8 as char, 2))
      case 'f' => Some((12 as char, 2))
      case 'n' => Some((10 as char, 2))
      case 'r' => Some((13 as char, 2))
      case 't' => Some((9 as char, 2))
      case 'v' => Some((11 as char, 2))
      case '\\' => Some(('\\', 2))
      case '"' => Some(('"', 2))
      case 'x' => UnquoteHex(s, 2)
      case 'u' => UnquoteHex(s, 4)
      case 'U' => UnquoteHex(s, 8)
      case _ => None
  }

  function UnquoteHex(s: string, width: nat): (r: Option<(char, nat)>)
    requires |s| >= 2
    ensures r.Some? ==> 1 <= r.value.1 <= |s|
  {
    if |s| < 2 + width || !AllHex(s[2..2 + width]) then None
    else
      var n := HexValue(s[2..2 + width]);
      if IsScalar(n) then Some((n as char, 2 + width)) else None
  }

  /** A quoted string after its opening quote: its value and its length with the
      closing quote. */
  function Unquote(s: string): (r: Option<(string, nat)>)
    ensures r.Some? ==> 1 <= r.value.1 <= |s|
    decreases |s|
  {
    if s == "" then None
    else if s[0] == '"' then Some(("", 1))
    else match UnquoteChar(s)
      case None => None
      case Some((c, n)) => UnquoteMore(c, n, Unquote(s[n..]))
  }

  function UnquoteMore(c: char, n: nat, r: Option<(string, nat)>): Option<(string, nat)> {
    match r case None => None case Some((v, m)) => Some(([c] + v, n + m))
  }

  predicate IsTwoCharSymbol(s: string) {
    |s| >= 2 && s[1] == '=' && (s[0] == '=' || s[0] == '!' || s[0] == '<' || s[0] == '>')
  }

  predicate IsSymbol(c: char) {
    c == '(' || c == ')' || c == '[' || c == ']' || c == ',' || c == '<' || c == '>' || c == '+' || c == '-'
  }

  function WordToken(word: string): FilterToken {
    if IsKeyword(word) then Keyword(ToLower(word)) else Name(word)
  }

  function ReadToken(s: string): (r: Option<Read>)
    requires s != ""
    ensures r.Some? ==> 1 <= r.value.len <= |s|
  {
    if s[0] == ' ' then Some(Read(None, 1))
    else if IdentStart(s[0]) then
      var n := 1 + IdentLength(s[1..]);
      Some(Read(Some(WordToken(s[..n])), n))
    else if NumberStart(s[0]) then
      var n := 1 + NumberLength(s[1..], false);
      Some(Read(Some(Number(s[..n])), n))
    else if s[0] == '"' then
      match Unquote(s[1..])
      case None => None
      case Some((v, n)) => Some(Read(Some(Text(v)), n + 1))
    else if IsTwoCharSymbol(s) then Some(Read(Some(Symbol(s[..2])), 2))
    else if IsSymbol(s[0]) then Some(Read(Some(Symbol([s[0]])), 1))
    else None
  }

  function LexFilter(s: string): Option<seq<FilterToken>>
    decreases |s|
  {
    if s == "" then Some([])
    else match ReadToken(s)
      case None => None
      case Some(t) => PrependToken(t.token, LexFilter(s[t.len..]))
  }

  function PrependToken(t: Option<FilterToken>, r: Option<seq<FilterToken>>): Option<seq<FilterToken>> {
    match r
    case None => None
    case Some(ts) => Some(if t.Some? then [t.value] + ts else ts)
  }

  // ------------------------------------------------------------------- parser

  datatype Operator = Eq | Ne | Lt | Le | Gt | Ge

  datatype Operand =
    | Field(name: string)
    | Num(sign: string, text: string)
    | Str(value: string)
    | Bool(b: bool)

  datatype Filter =
    | FOr(left: Filter, right: Filter)
    | FAnd(left: Filter, right: Filter)
    | FNot(expr: Filter)
    | FCompare(op: Operator, l: Operand, r: Operand)
    | FLike(l: Operand, r: Operand)
    | FIn(l: Operand, items: seq<Operand>, negated: bool)

  datatype Parsed<T> = Parsed(value: T, rest: seq<FilterToken>)

  predicate At(ts: seq<FilterToken>, t: FilterToken) {
    ts != [] && ts[0] == t
  }

  function ParseOperand(ts: seq<FilterToken>): (r: Option<Parsed<Operand>>)
    ensures r.Some? ==> |r.value.rest| < |ts|
  {
    if ts == [] then None
    else match ts[0]
      case Name(n) => Some(Parsed(Field(n), ts[1..]))
      case Number(x) => Some(Parsed(Num("", x), ts[1..]))
      case Text(v) => Some(Parsed(Str(v), ts[1..]))
      case Keyword(w) =>
        if w == "true" || w == "false" then Some(Parsed(Bool(w == "true"), ts[1..])) else None
      case Symbol(s) =>
        if (s == "+" || s == "-") && |ts| > 1 && ts[1].Number? then Some(Parsed(Num(s, ts[1].text), ts[2..])) else None
  }

  function ParseOperator(s: string): Option<Operator> {
    match s
    case "==" => Some(Eq)
    case "!=" => Some(Ne)
    case "<" => Some(Lt)
    case "<=" => Some(Le)
    case ">" => Some(Gt)
    case ">=" => Some(Ge)
    case _ => None
  }

  /** Operands separated by commas, up to a closing bracket. */
  function ParseItems(ts: seq<FilterToken>): (r: Option<Parsed<seq<Operand>>>)
    ensures r.Some? ==> |r.value.rest| < |ts|
    decreases |ts|
  {
    match ParseOperand(ts)
    case None => None
    case Some(p) =>
      if At(p.rest, Symbol("]")) then Some(Parsed([p.value], p.rest[1..]))
      else if At(p.rest, Symbol(",")) then
        match ParseItems(p.rest[1..])
        case None => None
        case Some(q) => Some(Parsed([p.value] + q.value, q.rest))
      else None
  }

  function ParseList(ts: seq<FilterToken>): (r: Option<Parsed<seq<Operand>>>)
    ensures r.Some? ==> |r.value.rest| < |ts|
  {
    if !At(ts, Symbol("[")) then None
    else if At(ts[1..], Symbol("]")) then Some(Parsed([], ts[2..]))
    else ParseItems(ts[1..])
  }

  function ParseIn(l: Operand, negated: bool, ts: seq<FilterToken>): (r: Option<Parsed<Filter>>)
    ensures r.Some? ==> |r.value.rest| < |ts|
  {
    match ParseList(ts)
    case None => None
    case Some(p) => Some(Parsed(FIn(l, p.value, negated), p.rest))
  }

  function ParsePredicate(ts: seq<FilterToken>): (r: Option<Parsed<Filter>>)
    ensures r.Some? ==> |r.value.rest| < |ts|
  {
    match ParseOperand(ts)
    case None => None
    case Some(l) =>
      if At(l.rest, Keyword("in")) then ParseIn(l.value, false, l.rest[1..])
      else if At(l.rest, Keyword("not")) && At(l.rest[1..], Keyword("in")) then ParseIn(l.value, true, l.rest[2..])
      else if At(l.rest, Keyword("like")) then
        match ParseOperand(l.rest[1..])
        case None => None
        case Some(r) => Some(Parsed(FLike(l.value, r.value), r.rest))
      else if l.rest == [] || !l.rest[0].Symbol? then None
      else match ParseOperator(l.rest[0].text)
        case None => None
        case Some(op) =>
          match ParseOperand(l.rest[1..])
          case None => None
          case Some(r) => Some(Parsed(FCompare(op, l.value, r.value), r.rest))
  }

  function ParsePrimary(ts: seq<FilterToken>): (r: Option<Parsed<Filter>>)
    ensures r.Some? ==> |r.value.rest| < |ts|
    decreases |ts|, 0
  {
    if At(ts, Symbol("(")) then
      match ParseOr(ts[1..])
      case None => None
      case Some(p) => if At(p.rest, Symbol(")")) then Some(Parsed(p.value, p.rest[1..])) else None
    else ParsePredicate(ts)
  }

  function ParseNot(ts: seq<FilterToken>): (r: Option<Parsed<Filter>>)
    ensures r.Some? ==> |r.value.rest| < |ts|
    decreases |ts|, 1
  {
    if At(ts, Keyword("not")) then
      match ParseNot(ts[1..])
      case None => None
      case Some(p) => Some(Parsed(FNot(p.value), p.rest))
    else ParsePrimary(ts)
  }

  function ParseAnd(ts: seq<FilterToken>): (r: Option<Parsed<Filter>>)
    ensures r.Some? ==> |r.value.rest| < |ts|
    decreases |ts|, 2
  {
    match ParseNot(ts) case None => None case Some(p) => AndTail(p.value, p.rest)
  }

  function AndTail(l: Filter, ts: seq<FilterToken>): (r: Option<Parsed<Filter>>)
    ensures r.Some? ==> |r.value.rest| <= |ts|
    decreases |ts|, 3
  {
    if !At(ts, Keyword("and")) then Some(Parsed(l, ts))
    else match ParseNot(ts[1..]) case None => None case Some(p) => AndTail(FAnd(l, p.value), p.rest)
  }

  function ParseOr(ts: seq<FilterToken>): (r: Option<Parsed<Filter>>)
    ensures r.Some? ==> |r.value.rest| < |ts|
    decreases |ts|, 4
  {
    match ParseAnd(ts) case None => None case Some(p) => OrTail(p.value, p.rest)
  }

  function OrTail(l: Filter, ts: seq<FilterToken>): (r: Option<Parsed<Filter>>)
    ensures r.Some? ==> |r.value.rest| <= |ts|
    decreases |ts|, 5
  {
    if !At(ts, Keyword("or")) then Some(Parsed(l, ts))
    else match ParseAnd(ts[1..]) case None => None case Some(p) => OrTail(FOr(l, p.value), p.rest)
  }

  function ParseFilter(s: string): Option<Filter> {
    match LexFilter(s)
    case None => None
    case Some(ts) =>
      match ParseOr(ts)
      case None => None
      case Some(p) => if p.rest == [] then Some(p.value) else None
  }
}
