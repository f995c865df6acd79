/** Printed filters are unambiguous: parsing the text of a filter gives back the
    WHERE expression, up to redundant parentheses and operator spelling. */
module FilterRoundTrip {
  import opened Prelude
  import opened Idents
  import opened SqlAst
  import opened FilterText
  import opened FilterGrammar

  // ----------------------------------------------- how printed text is lexed

  function Emit(ts: seq<FilterToken>, r: Option<seq<FilterToken>>): Option<seq<FilterToken>> {
    match r case None => None case Some(us) => Some(ts + us)
  }

  /** A character after which no token goes on. */
  predicate Delimiter(rest: string) {
    rest == "" || rest[0] == ' ' || rest[0] == ',' || rest[0] == ']' || rest[0] == ')'
  }

  predicate Meets(x: string, ts: seq<FilterToken>, rest: string) {
    LexFilter(x + rest) == Emit(ts, LexFilter(rest))
  }

  /** `x` is read as `ts` in front of any text. */
  ghost predicate Complete(x: string, ts: seq<FilterToken>) {
    forall rest :: Meets(x, ts, rest)
  }

  /** `x` is read as `ts` in front of any delimiter. */
  ghost predicate Open(x: string, ts: seq<FilterToken>) {
    forall rest :: Delimiter(rest) ==> Meets(x, ts, rest)
  }

  lemma MeetsBoth(a: string, ta: seq<FilterToken>, b: string, tb: seq<FilterToken>, rest: string)
    requires Meets(a, ta, b + rest) && Meets(b, tb, rest)
    ensures Meets(a + b, ta + tb, rest)
  {
    hide LexFilter;
    Assoc(a, b, rest);
    if LexFilter(rest).Some? { Assoc(ta, tb, LexFilter(rest).value); }
  }

  lemma OpenAfterComplete(a: string, ta: seq<FilterToken>, b: string, tb: seq<FilterToken>)
    requires Complete(a, ta) && Open(b, tb)
    ensures Open(a + b, ta + tb)
  {
    hide Meets;
    forall rest | Delimiter(rest) ensures Meets(a + b, ta + tb, rest) {
      MeetsBoth(a, ta, b, tb, rest);
    }
  }

  lemma CompleteAfterOpen(a: string, ta: seq<FilterToken>, b: string, tb: seq<FilterToken>)
    requires Open(a, ta) && Complete(b, tb) && b != "" && Delimiter(b)
    ensures Complete(a + b, ta + tb)
  {
    hide Meets;
    forall rest ensures Meets(a + b, ta + tb, rest) {
      assert (b + rest)[0] == b[0];
      MeetsBoth(a, ta, b, tb, rest);
    }
  }

  lemma CompleteAfterComplete(a: string, ta: seq<FilterToken>, b: string, tb: seq<FilterToken>)
    requires Complete(a, ta) && Complete(b, tb)
    ensures Complete(a + b, ta + tb)
  {
    hide Meets;
    forall rest ensures Meets(a + b, ta + tb, rest) {
      MeetsBoth(a, ta, b, tb, rest);
    }
  }

  lemma CompleteIsOpen(a: string, ta: seq<FilterToken>)
    requires Complete(a, ta)
    ensures Open(a, ta)
  {
    hide Meets;
  }

  lemma ReadMeets(x: string, t: Option<FilterToken>, rest: string)
    requires x != "" && ReadToken(x + rest) == Some(Read(t, |x|))
    ensures Meets(x, if t.Some? then [t.value] else [], rest)
  {
    hide ReadToken;
    DropPrefix(x, rest);
    var r := LexFilter(rest);
    assert LexFilter(x + rest) == PrependToken(t, r);
    if r.Some? && t.None? { assert [] + r.value == r.value; }
  }

  lemma BlankComplete()
    ensures Complete(" ", [])
  {
    hide Meets;
    forall rest ensures Meets(" ", [], rest) {
      ReadMeets(" ", None, rest);
    }
  }

  lemma SymbolComplete(s: string)
    requires s == "(" || s == ")" || s == "[" || s == "]" || s == "," || s == "+" || s == "-"
          || s == "==" || s == "!=" || s == "<=" || s == ">="
    ensures Complete(s, [Symbol(s)])
  {
    hide Meets;
    forall rest ensures Meets(s, [Symbol(s)], rest) {
      var t := s + rest;
      assert t[0] == s[0] && (|s| == 2 ==> t[1] == s[1] && t[..2] == s) && (|s| == 1 ==> [t[0]] == s);
      ReadMeets(s, Some(Symbol(s)), rest);
    }
  }

  lemma AngleOpen(s: string)
    requires s == "<" || s == ">"
    ensures Open(s, [Symbol(s)])
  {
    hide Meets;
    forall rest | Delimiter(rest) ensures Meets(s, [Symbol(s)], rest) {
      var t := s + rest;
      assert t[0] == s[0] && [t[0]] == s && (rest != "" ==> t[1] == rest[0]);
      ReadMeets(s, Some(Symbol(s)), rest);
    }
  }

  lemma WordOpen(w: string)
    requires FieldIdentifier(w)
    ensures Open(w, [WordToken(w)])
  {
    hide Meets, IdentLength;
    forall rest | Delimiter(rest) ensures Meets(w, [WordToken(w)], rest) {
      var t := w + rest;
      AppendTail(w, rest);
      IdentTail(w);
      IdentAppend(w[1..], rest);
      DropPrefix(w, rest);
      ReadMeets(w, Some(WordToken(w)), rest);
    }
  }

  lemma IdentTail(w: string)
    requires w != "" && IdentLength(w) == |w|
    ensures IdentLength(w[1..]) == |w[1..]|
  {
    hide IdentLength;
    IdentUnfold(w);
  }

  lemma KeywordOpen(w: string)
    requires w in KEYWORDS
    ensures Open(w, [Keyword(w)])
  {
    hide Open, IdentLength;
    assert forall k :: 0 <= k < |w| ==> 'a' <= w[k] <= 'z';
    WordRun(w);
    assert ToLower(w) == w;
    WordOpen(w);
  }

  // ----------------------------------------------------------------- numbers

  predicate IsNumeral(t: string) {
    t != "" && NumberStart(t[0]) && NumberLength(t[1..], false) == |t| - 1
  }

  lemma NumberUnfold(s: string, afterExponent: bool)
    ensures NumberLength(s, afterExponent) ==
            if s == "" then 0
            else if IdentChar(s[0]) || s[0] == '.' then 1 + NumberLength(s[1..], s[0] == 'e' || s[0] == 'E')
            else if afterExponent && (s[0] == '+' || s[0] == '-') then 1 + NumberLength(s[1..], false)
            else 0
  {
  }

  lemma {:induction false} NumberAppend(x: string, rest: string, afterExponent: bool)
    requires NumberLength(x, afterExponent) == |x| && Delimiter(rest)
    ensures NumberLength(x + rest, afterExponent) == |x|
    decreases |x|
  {
    hide NumberLength;
    NumberUnfold(x, afterExponent);
    NumberUnfold(x + rest, afterExponent);
    if x == "" {
      assert x + rest == rest;
    } else {
      AppendTail(x, rest);
      var exponent := (IdentChar(x[0]) || x[0] == '.') && (x[0] == 'e' || x[0] == 'E');
      NumberAppend(x[1..], rest, exponent);
    }
  }

  lemma NumeralOpen(t: string)
    requires IsNumeral(t)
    ensures Open(t, [Number(t)])
  {
    hide Meets, NumberLength;
    forall rest | Delimiter(rest) ensures Meets(t, [Number(t)], rest) {
      AppendTail(t, rest);
      NumberAppend(t[1..], rest, false);
      DropPrefix(t, rest);
      ReadMeets(t, Some(Number(t)), rest);
    }
  }

  // ----------------------------------------------------------- quoted strings

  function Pow16(width: nat): nat {
    if width == 0 then 1 else 16 * Pow16(width - 1)
  }

  lemma {:induction false} HexRoundTrip(n: nat, width: nat)
    requires n < Pow16(width)
    ensures AllHex(HexText(n, width)) && HexValue(HexText(n, width)) == n
    decreases width
  {
    if width > 0 {
      HexRoundTrip(n / 16, width - 1);
      var s := HexText(n, width);
      assert s[..|s| - 1] == HexText(n / 16, width - 1);
      assert IsHexDigit(s[|s| - 1]) && HexDigitValue(s[|s| - 1]) == n % 16;
      assert forall k :: 0 <= k < |s| - 1 ==> s[k] == HexText(n / 16, width - 1)[k];
    }
  }

  lemma UnquoteHexChar(c: char, mark: char, width: nat, t: string)
    requires c as int < Pow16(width)
    ensures UnquoteHex(['\\', mark] + HexText(c as int, width) + t, width) == Some((c, 2 + width))
  {
    hide HexText, HexValue, AllHex;
    HexRoundTrip(c as int, width);
    var s := ['\\', mark] + HexText(c as int, width) + t;
    assert s[2..2 + width] == HexText(c as int, width);
  }

  /** One quoted character reads back as itself. */
  lemma UnquoteQuotedChar(c: char, printable: char -> bool, t: string)
    ensures var q := QuoteChar(c, printable);
            q != "" && q[0] != '"' && UnquoteChar(q + t) == Some((c, |q|))
  {
    hide HexText, UnquoteHex;
    var q, n := QuoteChar(c, printable), c as int;
    var s := q + t;
    assert s[0] == q[0] && (|q| > 1 ==> s[1] == q[1]);
    assert Pow16(2) == 256 && Pow16(4) == 0x1_0000 && Pow16(8) == 0x1_0000_0000;
    if |q| == 4 {
      UnquoteHexChar(c, 'x', 2, t);
      assert s == ['\\', 'x'] + HexText(n, 2) + t;
    } else if |q| == 6 {
      UnquoteHexChar(c, 'u', 4, t);
      assert s == ['\\', 'u'] + HexText(n, 4) + t;
    } else if |q| == 10 {
      UnquoteHexChar(c, 'U', 8, t);
      assert s == ['\\', 'U'] + HexText(n, 8) + t;
    }
  }

  lemma UnquoteUnfold(s: string)
    ensures s != "" && s[0] == '"' ==> Unquote(s) == Some(("", 1))
    ensures s != "" && s[0] != '"' && UnquoteChar(s).Some? ==>
              var c, n := UnquoteChar(s).value.0, UnquoteChar(s).value.1;
              Unquote(s) == UnquoteMore(c, n, Unquote(s[n..]))
  {
  }

  lemma BodyUnfold(s: string, printable: char -> bool)
    ensures QuoteBody(s, printable) == if s == "" then "" else QuoteChar(s[0], printable) + QuoteBody(s[1..], printable)
  {
  }

  /** `strconv.Quote` and the filter lexer are inverse on every string. */
  lemma {:induction false} QuotedReads(s: string, printable: char -> bool, tail: string)
    requires tail != "" && tail[0] == '"'
    ensures Unquote(QuoteBody(s, printable) + tail) == Some((s, |QuoteBody(s, printable)| + 1))
    decreases |s|
  {
    hide Unquote, UnquoteChar, QuoteBody, QuoteChar;
    BodyUnfold(s, printable);
    if s == "" {
      assert "" + tail == tail;
      UnquoteUnfold(tail);
    } else {
      var q, t := QuoteChar(s[0], printable), QuoteBody(s[1..], printable) + tail;
      QuotedReads(s[1..], printable, tail);
      UnquoteQuotedChar(s[0], printable, t);
      Assoc(q, QuoteBody(s[1..], printable), tail);
      AppendTail(q, t);
      DropPrefix(q, t);
      UnquoteUnfold(q + t);
      HeadTail(s);
    }
  }

  lemma QuoteComplete(s: string, printable: char -> bool)
    ensures Complete(Quote(s, printable), [Text(s)])
  {
    hide Meets, Unquote, QuoteBody;
    var x := Quote(s, printable);
    forall rest ensures Meets(x, [Text(s)], rest) {
      QuotedReads(s, printable, ['"'] + rest);
      assert (x + rest)[0] == '"';
      assert (x + rest)[1..] == QuoteBody(s, printable) + (['"'] + rest);
      ReadMeets(x, Some(Text(s)), rest);
    }
  }

  // ------------------------------------------------------ tokens of a filter

  /** What the SQL parser guarantees about number literals: a numeral, which the
      parser may have folded a minus sign into. */
  predicate WellFormedOperand(e: Expr) {
    match e
    case Literal(kind, text) =>
      kind == IntVal || kind == FloatVal ==> IsNumeral(text) || (HasPrefix(text, "-") && IsNumeral(text[1..]))
    case Unary(_, operand) => operand.Literal? ==> IsNumeral(operand.text)
    case _ => true
  }

  predicate WellFormed(e: Expr) {
    match e
    case And(l, r) => WellFormed(l) && WellFormed(r)
    case Or(l, r) => WellFormed(l) && WellFormed(r)
    case Not(x) => WellFormed(x)
    case Paren(x) => WellFormed(x)
    case Compare(_, l, r, _) =>
      WellFormedOperand(l) && WellFormedOperand(r) &&
      (r.Tuple? ==> forall k :: 0 <= k < |r.items| ==> WellFormedOperand(r.items[k]))
    case _ => true
  }

  /** The operand an SQL value stands for. */
  function OperandOf(e: Expr): Operand {
    match e
    case Column(_, name) => Field(name)
    case Literal(kind, text) =>
      if kind == StrVal then Str(text)
      else if HasPrefix(text, "-") then Num("-", text[1..])
      else Num("", text)
    case BoolLit(b) => Bool(b)
    case Unary(op, operand) => Num(op, if operand.Literal? then operand.text else "")
    case _ => Str("")
  }

  function OperandTokens(o: Operand): seq<FilterToken> {
    match o
    case Field(name) => [WordToken(name)]
    case Num(sign, text) => if sign == "" then [Number(text)] else [Symbol(sign), Number(text)]
    case Str(value) => [Text(value)]
    case Bool(b) => [Keyword(if b then "true" else "false")]
  }

  function OperandsOf(items: seq<Expr>): (os: seq<Operand>)
    ensures |os| == |items|
  {
    if items == [] then [] else [OperandOf(items[0])] + OperandsOf(items[1..])
  }

  function ItemTokens(os: seq<Operand>): seq<FilterToken> {
    if os == [] then []
    else if |os| == 1 then OperandTokens(os[0])
    else OperandTokens(os[0]) + [Symbol(",")] + ItemTokens(os[1..])
  }

  function InTokens(op: string): seq<FilterToken> {
    if op == "in" then [Keyword("in")] else [Keyword("not"), Keyword("in")]
  }

  function CompareTokens(e: Expr): seq<FilterToken>
    requires e.Compare?
  {
    if e.op == "in" || e.op == "not in" then
      OperandTokens(OperandOf(e.left)) + InTokens(e.op) + [Symbol("[")]
      + (if e.right.Tuple? then ItemTokens(OperandsOf(e.right.items)) else []) + [Symbol("]")]
    else
      OperandTokens(OperandOf(e.left))
      + [if e.op == "like" then Keyword("like") else Symbol(FilterOperator(e.op))]
      + OperandTokens(OperandOf(e.right))
  }

  function FilterTokens(e: Expr): seq<FilterToken> {
    match e
    case And(l, r) => [Symbol("(")] + FilterTokens(l) + [Keyword("and")] + FilterTokens(r) + [Symbol(")")]
    case Or(l, r) => [Symbol("(")] + FilterTokens(l) + [Keyword("or")] + FilterTokens(r) + [Symbol(")")]
    case Not(x) => [Keyword("not"), Symbol("(")] + FilterTokens(x) + [Symbol(")")]
    case Paren(x) => [Symbol("(")] + FilterTokens(x) + [Symbol(")")]
    case Compare(_, _, _, _) => CompareTokens(e)
    case _ => []
  }

  lemma SignedOpen(sign: string, t: string)
    requires (sign == "-" || sign == "+") && IsNumeral(t)
    ensures Open(sign + t, [Symbol(sign), Number(t)])
  {
    hide Open, Complete, IsNumeral;
    SymbolComplete(sign);
    NumeralOpen(t);
    OpenAfterComplete(sign, [Symbol(sign)], t, [Number(t)]);
    assert [Symbol(sign)] + [Number(t)] == [Symbol(sign), Number(t)];
  }

  lemma OperandOpen(e: Expr, printable: char -> bool)
    requires FilterValue(e, printable).Ok? && WellFormedOperand(e)
    ensures Open(FilterValue(e, printable).value, OperandTokens(OperandOf(e)))
  {
    hide Open, Complete, Quote, IdentLength, IsNumeral;
    match e
    case Column(_, name) => WordOpen(name);
    case Literal(kind, text) =>
      if kind == StrVal {
        QuoteComplete(text, printable);
        CompleteIsOpen(Quote(text, printable), [Text(text)]);
      } else if HasPrefix(text, "-") {
        MinusIsNoNumeral(text);
        assert text == "-" + text[1..];
        SignedOpen("-", text[1..]);
      } else {
        NumeralOpen(text);
      }
    case BoolLit(b) => KeywordOpen(if b then "true" else "false");
    case Unary(op, operand) => SignedOpen(op, operand.text);
  }

  lemma MinusIsNoNumeral(t: string)
    requires HasPrefix(t, "-")
    ensures !IsNumeral(t)
  {
    assert t[0] == t[..1][0];
  }

  lemma {:induction false} ItemsOpen(items: seq<Expr>, printable: char -> bool)
    requires ListItems(items, printable).Ok?
    requires forall k :: 0 <= k < |items| ==> WellFormedOperand(items[k])
    ensures var xs := ListItems(items, printable).value;
            Open(Join(xs), ItemTokens(OperandsOf(items)))
  {
    hide Open, Complete, FilterValue, WellFormedOperand, OperandTokens, OperandOf;
    if items == [] {
      EmptyOpen();
    } else {
      var xs, os := ListItems(items[1..], printable).value, OperandsOf(items[1..]);
      var x, o := ListItem(items[0], printable).value, OperandOf(items[0]);
      OperandOpen(items[0], printable);
      ItemsOpen(items[1..], printable);
      assert ([x] + xs)[1..] == xs && ([o] + os)[1..] == os;
      if |items| > 1 {
        SymbolComplete(",");
        CompleteAfterOpen(x, OperandTokens(o), ",", [Symbol(",")]);
        OpenAfterComplete(x + ",", OperandTokens(o) + [Symbol(",")], Join(xs), ItemTokens(os));
      }
    }
  }

  lemma EmptyOpen()
    ensures Open("", [])
  {
    hide LexFilter;
    forall rest: string ensures Meets("", [], rest) {
      assert "" + rest == rest;
      var r := LexFilter(rest);
      if r.Some? { assert [] + r.value == r.value; }
    }
  }

  /** `a`, a blank and `b`, for an open `a`. */
  lemma Blank(a: string, ta: seq<FilterToken>)
    requires Open(a, ta)
    ensures Complete(a + " ", ta)
  {
    hide Open, Complete;
    BlankComplete();
    CompleteAfterOpen(a, ta, " ", []);
    assert ta + [] == ta;
  }

  lemma Infix(a: string, ta: seq<FilterToken>, w: string, tw: seq<FilterToken>, b: string, tb: seq<FilterToken>)
    requires Open(a, ta) && Open(w, tw) && Open(b, tb)
    ensures Open(a + " " + w + " " + b, ta + tw + tb)
  {
    hide Open, Complete;
    Blank(a, ta);
    OpenAfterComplete(a + " ", ta, w, tw);
    Blank(a + " " + w, ta + tw);
    OpenAfterComplete(a + " " + w + " ", ta + tw, b, tb);
  }

  lemma OperatorOpen(op: string)
    requires op == "like" || IsComparison(op)
    ensures Open(FilterOperator(op), [if op == "like" then Keyword("like") else Symbol(FilterOperator(op))])
  {
    hide Open, Complete;
    if op == "like" {
      KeywordOpen("like");
    } else if op == "<" || op == ">" {
      AngleOpen(op);
    } else {
      SymbolComplete(FilterOperator(op));
      CompleteIsOpen(FilterOperator(op), [Symbol(FilterOperator(op))]);
    }
  }

  lemma InOpen(op: string)
    requires op == "in" || op == "not in"
    ensures Open(op, InTokens(op))
  {
    hide Open, Complete;
    KeywordOpen("in");
    if op == "not in" {
      KeywordOpen("not");
      Blank("not", [Keyword("not")]);
      OpenAfterComplete("not" + " ", [Keyword("not")], "in", [Keyword("in")]);
      assert "not" + " " + "in" == "not in";
      assert [Keyword("not")] + [Keyword("in")] == InTokens(op);
    }
  }

  lemma CompareOpen(e: Expr, printable: char -> bool)
    requires e.Compare? && ScalarFilter(e, printable).Ok? && WellFormed(e)
    ensures Open(ScalarFilter(e, printable).value, FilterTokens(e))
  {
    hide Open, Complete, FilterValue, ListItems, OperandTokens, OperandOf, OperandsOf, WellFormedOperand, ItemTokens,
      Join, IsComparison, FilterOperator, InTokens;
    var l, tl := FilterValue(e.left, printable).value, OperandTokens(OperandOf(e.left));
    OperandOpen(e.left, printable);
    if e.op == "in" || e.op == "not in" {
      var xs, ts := Join(ListItems(e.right.items, printable).value), ItemTokens(OperandsOf(e.right.items));
      ItemsOpen(e.right.items, printable);
      InOpen(e.op);
      Blank(l, tl);
      OpenAfterComplete(l + " ", tl, e.op, InTokens(e.op));
      SymbolComplete("[");
      SymbolComplete("]");
      BlankComplete();
      CompleteAfterComplete(" ", [], "[", [Symbol("[")]);
      assert " " + "[" == " [" && [] + [Symbol("[")] == [Symbol("[")];
      CompleteAfterOpen(l + " " + e.op, tl + InTokens(e.op), " [", [Symbol("[")]);
      OpenAfterComplete(l + " " + e.op + " [", tl + InTokens(e.op) + [Symbol("[")], xs, ts);
      CompleteAfterOpen(l + " " + e.op + " [" + xs, tl + InTokens(e.op) + [Symbol("[")] + ts, "]", [Symbol("]")]);
      CompleteIsOpen(ScalarFilter(e, printable).value, FilterTokens(e));
    } else {
      var r, tr := FilterValue(e.right, printable).value, OperandTokens(OperandOf(e.right));
      OperandOpen(e.right, printable);
      OperatorOpen(e.op);
      Infix(l, tl, FilterOperator(e.op), [if e.op == "like" then Keyword("like") else Symbol(FilterOperator(e.op))], r, tr);
    }
  }

  lemma PairComplete(a: string, ta: seq<FilterToken>, w: string, b: string, tb: seq<FilterToken>)
    requires Open(a, ta) && Open(b, tb) && w in KEYWORDS
    ensures Complete("(" + a + " " + w + " " + b + ")", [Symbol("(")] + ta + [Keyword(w)] + tb + [Symbol(")")])
  {
    hide Open, Complete;
    SymbolComplete("(");
    SymbolComplete(")");
    KeywordOpen(w);
    OpenAfterComplete("(", [Symbol("(")], a, ta);
    Infix("(" + a, [Symbol("(")] + ta, w, [Keyword(w)], b, tb);
    CompleteAfterOpen("(" + a + " " + w + " " + b, [Symbol("(")] + ta + [Keyword(w)] + tb, ")", [Symbol(")")]);
  }

  lemma ParenComplete(a: string, ta: seq<FilterToken>)
    requires Open(a, ta)
    ensures Complete("(" + a + ")", [Symbol("(")] + ta + [Symbol(")")])
  {
    hide Open, Complete;
    SymbolComplete("(");
    SymbolComplete(")");
    OpenAfterComplete("(", [Symbol("(")], a, ta);
    CompleteAfterOpen("(" + a, [Symbol("(")] + ta, ")", [Symbol(")")]);
  }

  lemma NotComplete(a: string, ta: seq<FilterToken>)
    requires Open(a, ta)
    ensures Complete("not (" + a + ")", [Keyword("not"), Symbol("(")] + ta + [Symbol(")")])
  {
    hide Open, Complete;
    KeywordOpen("not");
    Blank("not", [Keyword("not")]);
    ParenComplete(a, ta);
    CompleteAfterComplete("not" + " ", [Keyword("not")], "(" + a + ")", [Symbol("(")] + ta + [Symbol(")")]);
    assert "not" + " " + ("(" + a + ")") == "not (" + a + ")";
    assert [Keyword("not")] + ([Symbol("(")] + ta + [Symbol(")")]) == [Keyword("not"), Symbol("(")] + ta + [Symbol(")")];
  }

  /** A printed filter is lexed as its tokens. */
  lemma {:induction false} FilterOpen(e: Expr, printable: char -> bool)
    requires ScalarFilter(e, printable).Ok? && WellFormed(e)
    ensures Open(ScalarFilter(e, printable).value, FilterTokens(e))
  {
    hide Open, Complete, FilterCompare, WellFormedOperand, CompareTokens;
    match e
    case And(l, r) =>
      FilterOpen(l, printable);
      FilterOpen(r, printable);
      PairComplete(ScalarFilter(l, printable).value, FilterTokens(l), "and", ScalarFilter(r, printable).value, FilterTokens(r));
      CompleteIsOpen(ScalarFilter(e, printable).value, FilterTokens(e));
    case Or(l, r) =>
      FilterOpen(l, printable);
      FilterOpen(r, printable);
      PairComplete(ScalarFilter(l, printable).value, FilterTokens(l), "or", ScalarFilter(r, printable).value, FilterTokens(r));
      CompleteIsOpen(ScalarFilter(e, printable).value, FilterTokens(e));
    case Not(x) =>
      FilterOpen(x, printable);
      NotComplete(ScalarFilter(x, printable).value, FilterTokens(x));
      CompleteIsOpen(ScalarFilter(e, printable).value, FilterTokens(e));
    case Paren(x) =>
      FilterOpen(x, printable);
      ParenComplete(ScalarFilter(x, printable).value, FilterTokens(x));
      CompleteIsOpen(ScalarFilter(e, printable).value, FilterTokens(e));
    case Compare(_, _, _, _) => CompareOpen(e, printable);
  }

  lemma FilterLexes(e: Expr, printable: char -> bool)
    requires ScalarFilter(e, printable).Ok? && WellFormed(e)
    ensures LexFilter(ScalarFilter(e, printable).value) == Some(FilterTokens(e))
  {
    hide ScalarFilter, WellFormed, FilterTokens;
    FilterOpen(e, printable);
    var x, ts := ScalarFilter(e, printable).value, FilterTokens(e);
    assert Meets(x, ts, "");
    assert x + "" == x && ts + [] == ts;
  }

  // ------------------------------------------------------- parsing them back

  function OperatorOf(op: string): Operator {
    match op
    case "=" => Eq
    case "<" => Lt
    case "<=" => Le
    case ">" => Gt
    case ">=" => Ge
    case _ => Ne
  }

  /** The filter a WHERE expression denotes: parentheses dropped, operators and
      operands in filter terms. */
  function FilterOf(e: Expr): Filter {
    match e
    case And(l, r) => FAnd(FilterOf(l), FilterOf(r))
    case Or(l, r) => FOr(FilterOf(l), FilterOf(r))
    case Not(x) => FNot(FilterOf(x))
    case Paren(x) => FilterOf(x)
    case Compare(op, l, r, _) =>
      if op == "in" || op == "not in" then
        FIn(OperandOf(l), if r.Tuple? then OperandsOf(r.items) else [], op == "not in")
      else if op == "like" then FLike(OperandOf(l), OperandOf(r))
      else FCompare(OperatorOf(op), OperandOf(l), OperandOf(r))
    case _ => FNot(FLike(Str(""), Str("")))
  }

  predicate PlainOperand(o: Operand) {
    o.Field? ==> !IsKeyword(o.name)
  }

  /** No column of the filter is named like a keyword of the filter language. */
  predicate PlainNames(f: Filter) {
    match f
    case FAnd(l, r) => PlainNames(l) && PlainNames(r)
    case FOr(l, r) => PlainNames(l) && PlainNames(r)
    case FNot(x) => PlainNames(x)
    case FCompare(_, l, r) => PlainOperand(l) && PlainOperand(r)
    case FLike(l, r) => PlainOperand(l) && PlainOperand(r)
    case FIn(l, items, _) => PlainOperand(l) && forall k :: 0 <= k < |items| ==> PlainOperand(items[k])
  }

  predicate Signed(o: Operand) {
    o.Num? ==> o.sign == "" || o.sign == "+" || o.sign == "-"
  }

  lemma OperandParses(o: Operand, rest: seq<FilterToken>)
    requires PlainOperand(o) && Signed(o)
    ensures OperandTokens(o) != []
    ensures ParseOperand(OperandTokens(o) + rest) == Some(Parsed(o, rest))
  {
    hide IsKeyword;
    var ts := OperandTokens(o);
    assert (ts + rest)[0] == ts[0] && (|ts| == 2 ==> (ts + rest)[1] == ts[1]);
    DropPrefix(ts, rest);
  }

  lemma {:induction false} ItemsParse(os: seq<Operand>, rest: seq<FilterToken>)
    requires os != [] && forall k :: 0 <= k < |os| ==> PlainOperand(os[k]) && Signed(os[k])
    ensures ParseItems(ItemTokens(os) + [Symbol("]")] + rest) == Some(Parsed(os, rest))
  {
    hide ParseOperand, OperandTokens, PlainOperand, Signed;
    var t := OperandTokens(os[0]);
    if |os| == 1 {
      OperandParses(os[0], [Symbol("]")] + rest);
      Assoc(t, [Symbol("]")], rest);
      AppendTail([Symbol("]")], rest);
      assert os == [os[0]] && [Symbol("]")][1..] + rest == rest;
    } else {
      var more := ItemTokens(os[1..]) + [Symbol("]")] + rest;
      ItemsParse(os[1..], rest);
      OperandParses(os[0], [Symbol(",")] + more);
      ItemsShape(t, ItemTokens(os[1..]), rest);
      AppendTail([Symbol(",")], more);
      assert [Symbol(",")][1..] + more == more;
      HeadTail(os);
    }
  }

  lemma ItemsShape(t: seq<FilterToken>, more: seq<FilterToken>, rest: seq<FilterToken>)
    ensures t + [Symbol(",")] + more + [Symbol("]")] + rest == t + ([Symbol(",")] + (more + [Symbol("]")] + rest))
  {
  }

  lemma ItemsStart(os: seq<Operand>, rest: seq<FilterToken>)
    requires os != [] && Signed(os[0])
    ensures ItemTokens(os) != [] && !At(ItemTokens(os) + rest, Symbol("]"))
  {
    hide ItemTokens, OperandTokens, IsKeyword;
    ItemsHead(os);
    var ts := ItemTokens(os);
    AppendTail(ts, rest);
    OperandHead(os[0]);
  }

  lemma ItemsHead(os: seq<Operand>)
    requires os != []
    ensures OperandTokens(os[0]) != [] && ItemTokens(os) != [] && ItemTokens(os)[0] == OperandTokens(os[0])[0]
  {
  }

  lemma OperandHead(o: Operand)
    requires Signed(o)
    ensures OperandTokens(o)[0] != Symbol("]")
  {
  }

  lemma ListParses(os: seq<Operand>, rest: seq<FilterToken>)
    requires forall k :: 0 <= k < |os| ==> PlainOperand(os[k]) && Signed(os[k])
    ensures ParseList([Symbol("[")] + ItemTokens(os) + [Symbol("]")] + rest) == Some(Parsed(os, rest))
  {
    hide ParseItems, ItemTokens, PlainOperand, Signed;
    var close := [Symbol("]")] + rest;
    var ts := [Symbol("[")] + ItemTokens(os) + [Symbol("]")] + rest;
    Assoc([Symbol("[")] + ItemTokens(os), [Symbol("]")], rest);
    Assoc([Symbol("[")], ItemTokens(os), close);
    FirstAndRest(Symbol("["), ItemTokens(os) + close);
    if os == [] {
      NoItems(os);
      assert [] + close == close;
      FirstAndRest(Symbol("]"), rest);
      DropDrop(ts, 1, 1);
    } else {
      ItemsParse(os, rest);
      ItemsStart(os, close);
      Assoc(ItemTokens(os), [Symbol("]")], rest);
    }
  }

  lemma NoItems(os: seq<Operand>)
    requires os == []
    ensures ItemTokens(os) == []
  {
  }

  lemma OperatorParses(op: string)
    requires IsComparison(op)
    ensures ParseOperator(FilterOperator(op)) == Some(OperatorOf(op))
  {
  }

  lemma OperandSigned(e: Expr, printable: char -> bool)
    requires FilterValue(e, printable).Ok?
    ensures Signed(OperandOf(e))
  {
    hide Quote;
  }

  lemma {:induction false} ItemsSigned(items: seq<Expr>, printable: char -> bool)
    requires ListItems(items, printable).Ok?
    ensures forall k :: 0 <= k < |items| ==> Signed(OperandsOf(items)[k])
  {
    hide FilterValue, Signed, OperandOf;
    if items != [] {
      ItemsSigned(items[1..], printable);
      OperandSigned(items[0], printable);
    }
  }

  lemma InParses(l: Operand, os: seq<Operand>, op: string, rest: seq<FilterToken>)
    requires op == "in" || op == "not in"
    requires PlainOperand(l) && Signed(l)
    requires forall k :: 0 <= k < |os| ==> PlainOperand(os[k]) && Signed(os[k])
    ensures ParsePredicate(OperandTokens(l) + InTokens(op) + [Symbol("[")] + ItemTokens(os) + [Symbol("]")] + rest)
         == Some(Parsed(FIn(l, os, op == "not in"), rest))
  {
    hide ParseOperand, ParseList, OperandTokens, ItemTokens, PlainOperand, Signed;
    var list := [Symbol("[")] + ItemTokens(os) + [Symbol("]")] + rest;
    var more := InTokens(op) + list;
    OperandParses(l, more);
    ListParses(os, rest);
    InShape(OperandTokens(l), InTokens(op), [Symbol("[")], ItemTokens(os), [Symbol("]")], rest);
    if op == "in" {
      assert more[0] == Keyword("in") && more[1..] == list;
    } else {
      assert more[0] == Keyword("not") && more[1..][0] == Keyword("in") && more[2..] == list;
    }
  }

  lemma InShape<T>(a: seq<T>, b: seq<T>, c: seq<T>, d: seq<T>, e: seq<T>, f: seq<T>)
    ensures a + b + c + d + e + f == a + (b + (c + d + e + f))
  {
    Assoc6(a, b, c, d, e, f);
    Assoc(c + d, e, f);
    Assoc(c, d, e + f);
  }

  lemma BinaryParses(l: Operand, r: Operand, t: FilterToken, rest: seq<FilterToken>)
    requires PlainOperand(l) && Signed(l) && PlainOperand(r) && Signed(r)
    requires t == Keyword("like") || (t.Symbol? && ParseOperator(t.text).Some?)
    ensures ParsePredicate(OperandTokens(l) + [t] + OperandTokens(r) + rest)
         == Some(Parsed(if t.Symbol? then FCompare(ParseOperator(t.text).value, l, r) else FLike(l, r), rest))
  {
    hide ParseOperand, OperandTokens, PlainOperand, Signed, ParseOperator;
    var more := [t] + (OperandTokens(r) + rest);
    OperandParses(l, more);
    OperandParses(r, rest);
    assert OperandTokens(l) + [t] + OperandTokens(r) + rest == OperandTokens(l) + more;
    assert more[0] == t && more[1..] == OperandTokens(r) + rest;
  }

  lemma CompareParses(e: Expr, printable: char -> bool, rest: seq<FilterToken>)
    requires e.Compare? && ScalarFilter(e, printable).Ok? && PlainNames(FilterOf(e))
    ensures ParsePredicate(FilterTokens(e) + rest) == Some(Parsed(FilterOf(e), rest))
    ensures FilterTokens(e) != [] && FilterTokens(e)[0] != Symbol("(") && FilterTokens(e)[0] != Keyword("not")
  {
    hide ParsePredicate, OperandTokens, PlainOperand, Signed, ItemTokens, OperandOf, OperandsOf, FilterValue, ListItems,
      OperatorOf, IsComparison, FilterOperator, InTokens;
    OperandSigned(e.left, printable);
    OperandFirst(OperandOf(e.left));
    if e.op == "in" || e.op == "not in" {
      ItemsSigned(e.right.items, printable);
      InParses(OperandOf(e.left), OperandsOf(e.right.items), e.op, rest);
    } else {
      OperandSigned(e.right, printable);
      if e.op == "like" {
        BinaryParses(OperandOf(e.left), OperandOf(e.right), Keyword("like"), rest);
      } else {
        OperatorParses(e.op);
        BinaryParses(OperandOf(e.left), OperandOf(e.right), Symbol(FilterOperator(e.op)), rest);
      }
    }
  }

  lemma OperandFirst(o: Operand)
    requires PlainOperand(o) && Signed(o)
    ensures OperandTokens(o) != []
    ensures OperandTokens(o)[0] != Symbol("(") && OperandTokens(o)[0] != Keyword("not")
  {
  }

  /** Between parentheses, `a op b` parses as the conjunction or disjunction of
      what `a` and `b` parse as. */
  lemma PairParses(a: Filter, ta: seq<FilterToken>, w: string, b: Filter, tb: seq<FilterToken>, rest: seq<FilterToken>)
    requires w == "and" || w == "or"
    requires var close := [Symbol(")")] + rest;
             && ParseNot(ta + ([Keyword(w)] + (tb + close))) == Some(Parsed(a, [Keyword(w)] + (tb + close)))
             && ParseNot(tb + close) == Some(Parsed(b, close))
    ensures ParseNot([Symbol("(")] + ta + [Keyword(w)] + tb + [Symbol(")")] + rest)
         == Some(Parsed(if w == "and" then FAnd(a, b) else FOr(a, b), rest))
  {
    var close := [Symbol(")")] + rest;
    var tail := [Keyword(w)] + (tb + close);
    var ts := [Symbol("(")] + ta + [Keyword(w)] + tb + [Symbol(")")] + rest;
    hide ParseNot;
    Assoc6([Symbol("(")], ta, [Keyword(w)], tb, [Symbol(")")], rest);
    FirstAndRest(Symbol("("), ta + tail);
    FirstAndRest(Keyword(w), tb + close);
    FirstAndRest(Symbol(")"), rest);
    InnerPair(a, ta + tail, w, b, tail, tb + close, close);
    ParenParses(ts, if w == "and" then FAnd(a, b) else FOr(a, b), close);
  }

  lemma FirstAndRest<T>(t: T, rest: seq<T>)
    ensures ([t] + rest)[0] == t && ([t] + rest)[1..] == rest
  {
  }

  lemma InnerPair(a: Filter, inner: seq<FilterToken>, w: string, b: Filter, tail: seq<FilterToken>,
                  second: seq<FilterToken>, close: seq<FilterToken>)
    requires w == "and" || w == "or"
    requires ParseNot(inner) == Some(Parsed(a, tail)) && At(tail, Keyword(w)) && tail[1..] == second
    requires ParseNot(second) == Some(Parsed(b, close)) && At(close, Symbol(")"))
    ensures ParseOr(inner) == Some(Parsed(if w == "and" then FAnd(a, b) else FOr(a, b), close))
  {
    hide ParseNot;
    if w == "and" {
      assert AndTail(FAnd(a, b), close) == Some(Parsed(FAnd(a, b), close));
      assert AndTail(a, tail) == AndTail(FAnd(a, b), close);
      assert ParseAnd(inner) == Some(Parsed(FAnd(a, b), close));
    } else {
      assert AndTail(a, tail) == Some(Parsed(a, tail));
      assert ParseAnd(inner) == Some(Parsed(a, tail));
      assert AndTail(b, close) == Some(Parsed(b, close));
      assert ParseAnd(second) == Some(Parsed(b, close));
      assert OrTail(FOr(a, b), close) == Some(Parsed(FOr(a, b), close));
    }
  }

  lemma ParenParses(ts: seq<FilterToken>, f: Filter, close: seq<FilterToken>)
    requires At(ts, Symbol("(")) && ParseOr(ts[1..]) == Some(Parsed(f, close)) && At(close, Symbol(")"))
    ensures ParseNot(ts) == Some(Parsed(f, close[1..]))
  {
    hide ParseOr, ParsePredicate;
    assert ParsePrimary(ts) == Some(Parsed(f, close[1..]));
  }

  lemma SingleParses(a: Filter, ta: seq<FilterToken>, rest: seq<FilterToken>)
    requires ParseNot(ta + ([Symbol(")")] + rest)) == Some(Parsed(a, [Symbol(")")] + rest))
    ensures ParseNot([Symbol("(")] + ta + [Symbol(")")] + rest) == Some(Parsed(a, rest))
  {
    var close := [Symbol(")")] + rest;
    var ts := [Symbol("(")] + ta + [Symbol(")")] + rest;
    assert ts[0] == Symbol("(") && ts[1..] == ta + close && close[0] == Symbol(")") && close[1..] == rest;
    InnerSingle(a, ta + close, close);
    ParenParses(ts, a, close);
  }

  lemma InnerSingle(a: Filter, inner: seq<FilterToken>, close: seq<FilterToken>)
    requires ParseNot(inner) == Some(Parsed(a, close)) && At(close, Symbol(")"))
    ensures ParseOr(inner) == Some(Parsed(a, close))
  {
    hide ParseNot;
    assert AndTail(a, close) == Some(Parsed(a, close));
    assert ParseAnd(inner) == Some(Parsed(a, close));
  }

  lemma NegationParses(a: Filter, ta: seq<FilterToken>, rest: seq<FilterToken>)
    requires ParseNot([Symbol("(")] + ta + [Symbol(")")] + rest) == Some(Parsed(a, rest))
    ensures ParseNot([Keyword("not"), Symbol("(")] + ta + [Symbol(")")] + rest) == Some(Parsed(FNot(a), rest))
  {
    var ts := [Keyword("not"), Symbol("(")] + ta + [Symbol(")")] + rest;
    assert ts[0] == Keyword("not") && ts[1..] == [Symbol("(")] + ta + [Symbol(")")] + rest;
  }

  lemma {:induction false} FilterParses(e: Expr, printable: char -> bool, rest: seq<FilterToken>)
    requires ScalarFilter(e, printable).Ok? && PlainNames(FilterOf(e))
    ensures ParseNot(FilterTokens(e) + rest) == Some(Parsed(FilterOf(e), rest))
    decreases e
  {
    hide ParseNot, CompareTokens, FilterCompare, PlainOperand;
    match e
    case And(l, r) =>
      FilterParses(r, printable, [Symbol(")")] + rest);
      FilterParses(l, printable, [Keyword("and")] + (FilterTokens(r) + ([Symbol(")")] + rest)));
      PairParses(FilterOf(l), FilterTokens(l), "and", FilterOf(r), FilterTokens(r), rest);
    case Or(l, r) =>
      FilterParses(r, printable, [Symbol(")")] + rest);
      FilterParses(l, printable, [Keyword("or")] + (FilterTokens(r) + ([Symbol(")")] + rest)));
      PairParses(FilterOf(l), FilterTokens(l), "or", FilterOf(r), FilterTokens(r), rest);
    case Not(x) =>
      FilterParses(x, printable, [Symbol(")")] + rest);
      SingleParses(FilterOf(x), FilterTokens(x), rest);
      NegationParses(FilterOf(x), FilterTokens(x), rest);
    case Paren(x) =>
      FilterParses(x, printable, [Symbol(")")] + rest);
      SingleParses(FilterOf(x), FilterTokens(x), rest);
    case Compare(_, _, _, _) =>
      CompareParses(e, printable, rest);
      PredicateParses(FilterTokens(e), rest);
  }

  lemma PredicateParses(ts: seq<FilterToken>, rest: seq<FilterToken>)
    requires ts != [] && ts[0] != Symbol("(") && ts[0] != Keyword("not")
    ensures ParseNot(ts + rest) == ParsePredicate(ts + rest)
  {
    hide ParsePredicate;
    assert (ts + rest)[0] == ts[0];
  }

  lemma TopLevel(e: Expr, printable: char -> bool)
    requires ScalarFilter(e, printable).Ok? && PlainNames(FilterOf(e))
    ensures ParseOr(FilterTokens(e)) == Some(Parsed(FilterOf(e), []))
  {
    hide ParseNot, FilterTokens, FilterOf, ScalarFilter, PlainNames;
    FilterParses(e, printable, []);
    assert FilterTokens(e) + [] == FilterTokens(e);
    var f := FilterOf(e);
    assert AndTail(f, []) == Some(Parsed(f, []));
    assert ParseAnd(FilterTokens(e)) == Some(Parsed(f, []));
  }

  // ------------------------------------------------- keywords are never columns

  predicate PlainTokens(ts: seq<FilterToken>) {
    forall k :: 0 <= k < |ts| ==> (ts[k].Name? ==> !IsKeyword(ts[k].name))
  }

  lemma {:induction false} LexedNamesPlain(s: string)
    ensures LexFilter(s).Some? ==> PlainTokens(LexFilter(s).value)
    decreases |s|
  {
    hide IdentLength, NumberLength, Unquote, IsKeyword;
    if s != "" && ReadToken(s).Some? {
      LexedNamesPlain(s[ReadToken(s).value.len..]);
    }
  }

  lemma OperandPlain(ts: seq<FilterToken>)
    requires PlainTokens(ts)
    ensures ParseOperand(ts).Some? ==> PlainOperand(ParseOperand(ts).value.value) && PlainTokens(ParseOperand(ts).value.rest)
  {
    hide IsKeyword;
  }

  lemma {:induction false} ItemsPlain(ts: seq<FilterToken>)
    requires PlainTokens(ts)
    ensures ParseItems(ts).Some? ==>
              && (forall k :: 0 <= k < |ParseItems(ts).value.value| ==> PlainOperand(ParseItems(ts).value.value[k]))
              && PlainTokens(ParseItems(ts).value.rest)
    decreases |ts|
  {
    hide IsKeyword, ParseOperand, PlainOperand;
    OperandPlain(ts);
    var p := ParseOperand(ts);
    if p.Some? && At(p.value.rest, Symbol(",")) { ItemsPlain(p.value.rest[1..]); }
  }

  lemma PredicatePlain(ts: seq<FilterToken>)
    requires PlainTokens(ts)
    ensures ParsePredicate(ts).Some? ==> PlainNames(ParsePredicate(ts).value.value) && PlainTokens(ParsePredicate(ts).value.rest)
  {
    hide IsKeyword, ParseOperand, PlainOperand, ParseItems, ParseOperator;
    OperandPlain(ts);
    var p := ParseOperand(ts);
    if p.Some? && p.value.rest != [] {
      var r := p.value.rest;
      OperandPlain(r[1..]);
      if |r| > 1 { ItemsPlain(r[2..]); }
      if |r| > 2 { ItemsPlain(r[3..]); }
    }
  }

  lemma {:induction false} PrimaryPlain(ts: seq<FilterToken>)
    requires PlainTokens(ts)
    ensures ParsePrimary(ts).Some? ==> PlainNames(ParsePrimary(ts).value.value) && PlainTokens(ParsePrimary(ts).value.rest)
    decreases |ts|, 0
  {
    hide IsKeyword, ParsePredicate, PlainNames;
    PredicatePlain(ts);
    if At(ts, Symbol("(")) { OrPlain(ts[1..]); }
  }

  lemma {:induction false} NotPlain(ts: seq<FilterToken>)
    requires PlainTokens(ts)
    ensures ParseNot(ts).Some? ==> PlainNames(ParseNot(ts).value.value) && PlainTokens(ParseNot(ts).value.rest)
    decreases |ts|, 1
  {
    hide IsKeyword, ParsePrimary, PlainOperand;
    if At(ts, Keyword("not")) { NotPlain(ts[1..]); } else { PrimaryPlain(ts); }
  }

  lemma {:induction false} AndTailPlain(l: Filter, ts: seq<FilterToken>)
    requires PlainNames(l) && PlainTokens(ts)
    ensures AndTail(l, ts).Some? ==> PlainNames(AndTail(l, ts).value.value) && PlainTokens(AndTail(l, ts).value.rest)
    decreases |ts|, 3
  {
    hide IsKeyword, ParseNot, PlainOperand;
    if At(ts, Keyword("and")) {
      NotPlain(ts[1..]);
      var p := ParseNot(ts[1..]);
      if p.Some? { AndTailPlain(FAnd(l, p.value.value), p.value.rest); }
    }
  }

  lemma {:induction false} OrTailPlain(l: Filter, ts: seq<FilterToken>)
    requires PlainNames(l) && PlainTokens(ts)
    ensures OrTail(l, ts).Some? ==> PlainNames(OrTail(l, ts).value.value) && PlainTokens(OrTail(l, ts).value.rest)
    decreases |ts|, 5
  {
    hide IsKeyword, ParseNot, PlainOperand, AndTail;
    if At(ts, Keyword("or")) {
      NotPlain(ts[1..]);
      var n := ParseNot(ts[1..]);
      if n.Some? { AndTailPlain(n.value.value, n.value.rest); }
      var p := ParseAnd(ts[1..]);
      if p.Some? { OrTailPlain(FOr(l, p.value.value), p.value.rest); }
    }
  }

  lemma {:induction false} OrPlain(ts: seq<FilterToken>)
    requires PlainTokens(ts)
    ensures ParseOr(ts).Some? ==> PlainNames(ParseOr(ts).value.value) && PlainTokens(ParseOr(ts).value.rest)
    decreases |ts|, 6
  {
    hide IsKeyword, ParseNot, PlainOperand, PlainNames, AndTail, OrTail;
    NotPlain(ts);
    var n := ParseNot(ts);
    if n.Some? { AndTailPlain(n.value.value, n.value.rest); }
    var p := ParseAnd(ts);
    if p.Some? { OrTailPlain(p.value.value, p.value.rest); }
  }

  // ------------------------------------------------------------ the main result

  /** Parsing a printed filter recovers the expression if and only if no column
      is named like a keyword: a column `true` prints as the truth value does. */
  lemma PrintedFilterParses(e: Expr, printable: char -> bool)
    requires ScalarFilter(e, printable).Ok? && WellFormed(e)
    ensures ParseFilter(ScalarFilter(e, printable).value) == Some(FilterOf(e)) <==> PlainNames(FilterOf(e))
  {
    hide LexFilter, ParseOr, ScalarFilter, FilterTokens, FilterOf, PlainNames, WellFormed, PlainTokens;
    FilterLexes(e, printable);
    if PlainNames(FilterOf(e)) {
      TopLevel(e, printable);
    } else {
      LexedNamesPlain(ScalarFilter(e, printable).value);
      OrPlain(FilterTokens(e));
    }
  }
}
