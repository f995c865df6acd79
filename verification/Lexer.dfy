/** The reference lexer: what a query means as a sequence of tokens, before
    and after binding.

    Quoting and numbers follow the MySQL 8.0 Reference Manual, sections 9.1.1,
    9.1.2, 9.1.4, 9.1.5 and 9.2, and the PostgreSQL 14 documentation, sections
    4.1.1, 4.1.2.1 (with standard_conforming_strings on), 4.1.2.5 and 4.1.2.6.
    Comments follow the binder: `--` up to the end of the line, and
    `/ * ... * /` without nesting. Names, keywords and numbers are not told apart:
    a maximal run of their bytes is one word, and so is a number with a signed
    exponent. */
module Lexer {
  import opened Prelude
  import opened Literals

  datatype Dialect = MySql | Postgres

  /** The three languages read here: a client query in either dialect, where
      placeholders exist, and bound MySQL text, where they do not. */
  datatype Lang = Query(dialect: Dialect) | Bound

  datatype Token =
    | Str(quote: char, value: string)
    | Prefixed(prefix: char, value: string) // x'...', b'...' and n'...'
    | Ident(value: string)
    | Word(text: string)
    | Punct(c: char)
    | Comment(text: string)
    | Param(number: nat)

  /** A token with the bytes it was read from. */
  datatype Lexeme = Lexeme(token: Token, raw: string)

  predicate IsQuote(c: char) {
    c == '\'' || c == '"' || c == '`'
  }

  /** Bytes of identifiers, keywords and numbers. `$` is one of them in MySQL; in
      PostgreSQL it continues names only (see `WordLength`). */
  predicate WordChar(c: char, lang: Lang) {
    IsLetter(c) || IsDigit(c) || c == '_' || c == '.' || c as int >= 128 ||
    (c == '$' && lang != Query(Postgres))
  }

  function RunLength(s: string, lang: Lang): (n: nat)
    ensures n <= |s|
    ensures forall k :: 0 <= k < n ==> WordChar(s[k], lang)
    ensures n < |s| ==> !WordChar(s[n], lang)
  {
    if s != "" && WordChar(s[0], lang) then 1 + RunLength(s[1..], lang) else 0
  }

  predicate IsSign(c: char) {
    c == '+' || c == '-'
  }

  /** Digits with at most one dot among or around them. */
  predicate Mantissa(w: string) {
    var d := DigitsLength(w);
    if d < |w| then w[d] == '.' && |w| > 1 && AllDigits(w[d + 1..]) else d > 0
  }

  /** A number up to its exponent mark, which a sign and a digit continue. */
  predicate EndsInExponent(w: string) {
    |w| > 1 && (w[|w| - 1] == 'e' || w[|w| - 1] == 'E') && Mantissa(w[..|w| - 1])
  }

  /** The first `n` bytes of `s` go on with a sign and the digits of an exponent. */
  predicate SignedAt(s: string, n: nat) {
    n + 1 < |s| && IsSign(s[n]) && IsDigit(s[n + 1]) && EndsInExponent(s[..n])
  }

  /** The run at the start of `s`, with the sign of an exponent in it. */
  function SignedRun(s: string, lang: Lang): (n: nat)
    ensures RunLength(s, lang) <= n <= |s|
  {
    var n := RunLength(s, lang);
    if SignedAt(s, n) then n + 1 + RunLength(s[n + 1..], lang) else n
  }

  /** The part of a word after its last dot. */
  function LastPart(w: string): string {
    if w == "" || w[|w| - 1] == '.' then "" else LastPart(w[..|w| - 1]) + [w[|w| - 1]]
  }

  predicate IsExponent(p: string) {
    && |p| > 1 && (p[0] == 'e' || p[0] == 'E')
    && (AllDigits(p[1..]) || (|p| > 2 && IsSign(p[1]) && AllDigits(p[2..])))
  }

  /** Digits, possibly with an exponent. */
  predicate IsNumberPart(p: string) {
    var d := DigitsLength(p);
    d == |p| || (0 < d && IsExponent(p[d..]))
  }

  /** Digits, a dot and an exponent. */
  predicate IsDottedExponent(w: string) {
    var d := DigitsLength(w);
    0 < d < |w| && w[d] == '.' && IsExponent(w[d + 1..])
  }

  /** `w` ends in a name, which a `$` would continue in PostgreSQL; after a number
      a `$` starts a placeholder. */
  predicate EndsInName(w: string) {
    !IsNumberPart(LastPart(w)) && !IsDottedExponent(w)
  }

  /** The word at the start of `s`. */
  function WordLength(s: string, lang: Lang): (n: nat)
    ensures SignedRun(s, lang) <= n <= |s|
  {
    var n := SignedRun(s, lang);
    if lang == Query(Postgres) && n < |s| && s[n] == '$' && EndsInName(s[..n]) then
      n + 1 + RunLength(s[n + 1..], Bound)
    else n
  }

  predicate IsPrefix(c: char) {
    c in {'x', 'X', 'b', 'B', 'n', 'N'}
  }

  /** A quote that a prefix letter makes part of a literal of its own kind. */
  predicate AtPrefixed(s: string) {
    |s| > 1 && IsPrefix(s[0]) && s[1] == '\''
  }

  function DigitsLength(s: string): (n: nat)
    ensures n <= |s|
    ensures AllDigits(s[..n])
    ensures n < |s| ==> !IsDigit(s[n])
  {
    if s != "" && IsDigit(s[0]) then 1 + DigitsLength(s[1..]) else 0
  }

  /** `strings.IndexByte`. */
  function IndexByte(s: string, c: char): (r: Option<nat>)
    ensures r.Some? ==> r.value < |s| && s[r.value] == c && c !in s[..r.value]
    ensures r.None? ==> c !in s
  {
    if s == "" then None
    else if s[0] == c then Some(0)
    else match IndexByte(s[1..], c) case None => None case Some(n) => Some(n + 1)
  }

  /** `strings.Index(s, [a, b])`. */
  function IndexPair(s: string, a: char, b: char): (r: Option<nat>)
    ensures r.Some? ==> r.value + 1 < |s| && s[r.value] == a && s[r.value + 1] == b
    ensures r.Some? ==> forall k :: 0 <= k < r.value ==> !(s[k] == a && s[k + 1] == b)
    ensures r.None? ==> forall k :: 0 <= k < |s| - 1 ==> !(s[k] == a && s[k + 1] == b)
  {
    if |s| < 2 then None
    else if s[0] == a && s[1] == b then Some(0)
    else match IndexPair(s[1..], a, b) case None => None case Some(n) => Some(n + 1)
  }

  /** `s` starts a `--` comment, or a block comment. */
  predicate AtLineComment(s: string) {
    |s| > 1 && s[0] == '-' && s[1] == '-'
  }

  predicate AtBlockComment(s: string) {
    |s| > 1 && s[0] == '/' && s[1] == '*'
  }

  function LineCommentLength(s: string): (n: nat)
    requires s != ""
    ensures 1 <= n <= |s|
  {
    match IndexByte(s, '\n') case None => |s| case Some(j) => j + 1
  }

  function BlockCommentLength(s: string): (r: Option<nat>)
    requires AtBlockComment(s)
    ensures r.Some? ==> 4 <= r.value <= |s|
  {
    match IndexPair(s[2..], '*', '/') case None => None case Some(j) => Some(j + 4)
  }

  /** The number of a PostgreSQL placeholder `$n` whose `$` was just read, with
      the length of its digits. */
  function DollarNumber(s: string): (r: Option<(nat, nat)>)
    ensures r.Some? ==> 1 <= r.value.0 <= 65535 && 1 <= r.value.1 <= |s|
  {
    var d := DigitsLength(s);
    if d == 0 then None
    else match ParseInt(s[..d], 64)
      case None => None
      case Some(n) => if n < 1 || n > 65535 then None else Some((n, d))
  }

  function QuotedToken(quote: char, lang: Lang, value: string): Token {
    if quote == '`' || (quote == '"' && lang == Query(Postgres)) then Ident(value) else Str(quote, value)
  }

  /** Backslash escapes exist in MySQL strings, not in MySQL identifiers and
      not in PostgreSQL. */
  predicate Escapes(quote: char, lang: Lang) {
    lang != Query(Postgres) && quote != '`'
  }

  /** The first token of `s`, `count` being the number of parameters so far. */
  function Next(s: string, lang: Lang, count: nat): (r: Option<Lexeme>)
    requires s != ""
    ensures r.Some? ==> r.value.raw != "" && r.value.raw <= s
    ensures r.Some? && r.value.token.Param? ==> lang.Query? && r.value.token.number >= 1
  {
    var c := s[0];
    if IsQuote(c) then
      if c == '`' && lang == Query(Postgres) then None
      else match ScanQuoted(s[1..], c, Escapes(c, lang))
        case None => None
        case Some(q) => Some(Lexeme(QuotedToken(c, lang, q.text), s[..q.len + 1]))
    else if AtLineComment(s) then
      var raw := s[..LineCommentLength(s)];
      Some(Lexeme(Comment(raw), raw))
    else if AtBlockComment(s) then
      match BlockCommentLength(s)
      case None => None
      case Some(n) => Some(Lexeme(Comment(s[..n]), s[..n]))
    else if c == '?' && lang == Query(MySql) then Some(Lexeme(Param(count + 1), "?"))
    else if c == '$' && lang == Query(Postgres) then
      match DollarNumber(s[1..])
      case None => None
      case Some((n, d)) => Some(Lexeme(Param(n), s[..d + 1]))
    else if AtPrefixed(s) then
      match ScanQuoted(s[2..], '\'', Escapes('\'', lang))
      case None => None
      case Some(q) => Some(Lexeme(Prefixed(c, q.text), s[..q.len + 2]))
    else if WordChar(c, lang) then
      var raw := s[..WordLength(s, lang)];
      Some(Lexeme(Word(raw), raw))
    else Some(Lexeme(Punct(c), [c]))
  }

  /** The parameter count after a token: the number of `?` seen, or the largest
      `$n`. */
  function CountAfter(count: nat, t: Token): nat {
    if t.Param? then Max(count, t.number) else count
  }

  function Lex(s: string, lang: Lang, count: nat): Option<seq<Lexeme>>
    decreases |s|
  {
    if s == "" then Some([])
    else match Next(s, lang, count)
      case None => None
      case Some(l) =>
        match Lex(s[|l.raw|..], lang, CountAfter(count, l.token))
        case None => None
        case Some(ls) => Some([l] + ls)
  }

  function Tokens(ls: seq<Lexeme>): (ts: seq<Token>)
    ensures |ts| == |ls|
  {
    if ls == [] then [] else [ls[0].token] + Tokens(ls[1..])
  }

  /** The tokens of bound MySQL text. */
  function BoundTokens(s: string): Option<seq<Token>> {
    match Lex(s, Bound, 0)
    case None => None
    case Some(ls) => Some(Tokens(ls))
  }

  function TotalCount(ls: seq<Lexeme>, count: nat): nat {
    if ls == [] then count else TotalCount(ls[1..], CountAfter(count, ls[0].token))
  }
}
