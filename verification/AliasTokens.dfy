/** `normalizeTypes` against the lexer: the type aliases it rewrites are the words
    `bool` and `boolean`, up to an exact condition on words and comments. */
module AliasTokens {
  import opened Prelude
  import opened Literals
  import opened Lexer
  import opened Idents
  import opened TypeAliases
  import B = BinderTokens

  /** What a token should become. */
  function Retype(t: Token): (ts: seq<Token>)
    ensures ts != []
  {
    if t.Word? && (EqualFold(t.text, "bool") || EqualFold(t.text, "boolean")) then
      [Word("tinyint"), Punct('('), Word("1"), Punct(')')]
    else [t]
  }

  lemma AliasWords(x: string)
    ensures IsAlias(x) <==> EqualFold(x, "bool") || EqualFold(x, "boolean")
  {
    assert ToLower("bool") == "bool" && ToLower("boolean") == "boolean";
  }

  function RetypeAll(ls: seq<Lexeme>): seq<Token> {
    if ls == [] then [] else Retype(ls[0].token) + RetypeAll(ls[1..])
  }

  predicate HasAlias(x: string) {
    exists k :: 0 <= k < |Pieces(x)| && IsAlias(Pieces(x)[k])
  }

  /** The scanner does to a token what should be done to it: no alias is hidden
      in a longer word, or stands in a comment outside quotes. */
  predicate Kept(l: Lexeme) {
    match l.token
    case Word(text) => IsAlias(text) || !HasAlias(text)
    case Comment(text) => !HasAlias(text)
    case _ => true
  }

  predicate AllKept(ls: seq<Lexeme>) {
    forall k :: 0 <= k < |ls| ==> Kept(ls[k])
  }

  predicate Unquoted(x: string) {
    forall c :: c in x ==> !IsQuote(c)
  }

  /** Every quoted region the scanner opens in `x` closes there. */
  predicate Settled(x: string)
    decreases |x|
  {
    x == "" || ((IsQuote(x[0]) ==> Closed(x[1..], x[0])) && Settled(x[PieceLength(x)..]))
  }

  /** No quoted region the scanner sees runs out of its token: those of a comment
      close in it, and no backtick in an identifier looks escaped. */
  predicate Calm(l: Lexeme) {
    && (l.token.Comment? ==> Settled(l.token.text))
    && (l.token.Ident? && l.raw != "" ==> EvenBackslashes(l.raw[1..], '`'))
  }

  predicate AllCalm(ls: seq<Lexeme>) {
    forall k :: 0 <= k < |ls| ==> Calm(ls[k])
  }

  predicate Reads(s: string, l: Lexeme) {
    s != "" && Next(s, Bound, 0) == Some(l)
  }

  lemma BoundUnfold(s: string)
    ensures s == "" ==> Lex(s, Bound, 0) == Some([])
    ensures s != "" && Next(s, Bound, 0).None? ==> Lex(s, Bound, 0) == None
    ensures s != "" && Next(s, Bound, 0).Some? ==>
              var l := Next(s, Bound, 0).value;
              var r := Lex(s[|l.raw|..], Bound, 0);
              && (r.None? ==> Lex(s, Bound, 0) == None)
              && (r.Some? ==> Lex(s, Bound, 0) == Some([l] + r.value))
  {
    hide Next;
  }

  // ------------------------------------------------------- splitting the scan

  /** `x` and `rest` are scanned apart: no piece of `x` goes on in `rest`. */
  predicate Splits(x: string, rest: string) {
    Settled(x) &&
    (x == "" || rest == "" || (!IsQuote(x[|x| - 1]) && (!IdentChar(rest[0]) || !IdentChar(x[|x| - 1]))))
  }

  lemma {:induction false} NormalizeSplit(x: string, rest: string)
    requires Splits(x, rest)
    ensures Normalize(x + rest) == Normalize(x) + Normalize(rest)
    decreases |x|
  {
    hide Normalize, PieceLength, IdentLength, Rewrite;
    NormalizeUnfold(x);
    if x == "" {
      assert x + rest == rest;
    } else {
      NormalizeUnfold(x + rest);
      SamePiece(x, rest);
      var n := PieceLength(x);
      assert (x + rest)[..n] == x[..n] && (x + rest)[n..] == x[n..] + rest;
      NormalizeSplit(x[n..], rest);
      Assoc(Rewrite(x[..n]), Normalize(x[n..]), Normalize(rest));
    }
  }

  lemma SamePiece(x: string, rest: string)
    requires x != "" && Splits(x, rest)
    ensures PieceLength(x + rest) == PieceLength(x)
  {
    hide IdentLength, QuotedLength, Closed, Settled;
    SettledHead(x);
    assert (x + rest)[0] == x[0] && (x + rest)[1..] == x[1..] + rest;
    if IsQuote(x[0]) {
      ClosedEnd(x[1..], x[0]);
      ClosedAppend(x[1..], x[0], rest);
    } else if IdentStart(x[0]) {
      var n := IdentLength(x[1..]);
      if n == |x| - 1 {
        if rest != "" && n > 0 { assert IdentChar(x[1..][n - 1]); }
        IdentAppend(x[1..], rest);
      } else {
        IdentPrefix(x[1..], rest);
      }
    }
  }

  lemma SettledHead(x: string)
    requires x != "" && Settled(x)
    ensures IsQuote(x[0]) ==> Closed(x[1..], x[0])
  {
  }

  lemma {:induction false} UnquotedSettled(x: string)
    requires Unquoted(x)
    ensures Settled(x)
    decreases |x|
  {
    hide PieceLength, IsQuote;
    if x != "" {
      assert x[0] in x;
      var rest := x[PieceLength(x)..];
      forall c | c in rest ensures !IsQuote(c) { assert c in x; }
      UnquotedSettled(rest);
    }
  }

  lemma {:induction false} ClosedEnd(t: string, quote: char)
    requires Closed(t, quote)
    ensures QuotedLength(t, quote) > 0 && t[QuotedLength(t, quote) - 1] == quote
    decreases |t|
  {
    hide QuotedLength, QuotedStride, Closed;
    QuotedLengthUnfold(t, quote);
    ClosedUnfold(t, quote);
    var k := QuotedStride(t, quote);
    if !(t[0] == quote && k == 1) { ClosedEnd(t[k..], quote); }
  }

  /** A closed region ends where it did, unless another quote follows. */
  lemma {:induction false} ClosedAppend(t: string, quote: char, rest: string)
    requires quote != '\\' && Closed(t, quote)
    requires QuotedLength(t, quote) == |t| ==> rest == "" || rest[0] != quote
    ensures QuotedLength(t + rest, quote) == QuotedLength(t, quote)
    decreases |t|
  {
    hide QuotedLength, QuotedStride, Closed;
    QuotedLengthUnfold(t, quote);
    ClosedUnfold(t, quote);
    QuotedLengthUnfold(t + rest, quote);
    var k := QuotedStride(t, quote);
    StrideAppend(t, quote, rest);
    if !(t[0] == quote && k == 1) {
      assert (t + rest)[k..] == t[k..] + rest;
      ClosedAppend(t[k..], quote, rest);
    }
  }

  lemma StrideAppend(t: string, quote: char, rest: string)
    requires t != "" && (|t| == 1 ==> t[0] != '\\' && (rest == "" || rest[0] != quote || t[0] != quote))
    ensures QuotedStride(t + rest, quote) == QuotedStride(t, quote) && (t + rest)[0] == t[0]
  {
    assert |t| > 1 ==> (t + rest)[1] == t[1];
  }

  lemma {:induction false} IdentPrefix(x: string, rest: string)
    requires IdentLength(x) < |x|
    ensures IdentLength(x + rest) == IdentLength(x)
    decreases |x|
  {
    AppendTail(x, rest);
    if IdentChar(x[0]) { IdentPrefix(x[1..], rest); }
  }

  /** A region of the scanner is a quoted token, where backslashes escape. */
  lemma {:induction false} RegionIsToken(t: string, quote: char)
    requires quote != '\\' && ScanQuoted(t, quote, true).Some?
    ensures QuotedLength(t, quote) == ScanQuoted(t, quote, true).value.len
    decreases |t|
  {
    hide ScanQuoted, Unescape;
    ScanUnfold(t, quote, true);
    var e := QuotedStep(t, quote, true);
    if e.Some? { RegionIsToken(t[e.value.len..], quote); }
  }

  lemma QuotedPieceLength(s: string, l: Lexeme)
    requires Reads(s, l) && IsQuote(s[0]) && Calm(l)
    ensures PieceLength(s) == |l.raw| && l.raw == s[..|l.raw|] && l.raw != "" && l.raw[0] == s[0]
  {
    hide ScanQuoted, QuotedLength, EvenBackslashes;
    var t := s[1..];
    if s[0] == '`' {
      EscapesAgree(t, '`');
      assert l.raw[1..] == t[..|l.raw| - 1];
    }
    RegionIsToken(t, s[0]);
  }

  lemma QuotedKept(s: string, l: Lexeme)
    requires Reads(s, l) && IsQuote(s[0]) && Calm(l)
    ensures Normalize(s) == l.raw + Normalize(s[|l.raw|..])
  {
    hide Next, PieceLength, Normalize, Calm, Rewrite;
    NormalizeUnfold(s);
    QuotedPieceLength(s, l);
    QuoteIsNoAlias(l.raw);
  }

  lemma QuoteIsNoAlias(x: string)
    requires x != "" && !IsLetter(x[0])
    ensures Rewrite(x) == x
  {
    hide Rewrite;
    if Rewrite(x) != x { AliasIsIdentifier(x); }
  }

  lemma PrefixedKept(s: string, l: Lexeme)
    requires Reads(s, l) && l.token.Prefixed?
    ensures Normalize(s) == l.raw + Normalize(s[|l.raw|..])
  {
    hide ScanQuoted, QuotedLength, Normalize, Rewrite, IdentLength, WordLength;
    var t := s[2..];
    NormalizeUnfold(s);
    NormalizeUnfold(s[1..]);
    IdentUnfold(s[1..]);
    assert PieceLength(s) == 1;
    RegionIsToken(t, '\'');
    assert s[1..][1..] == t && PieceLength(s[1..]) == |l.raw| - 1;
    QuoteIsNoAlias(s[1..][..|l.raw| - 1]);
    OneLetter(s[..1]);
    assert s[..1] + s[1..][..|l.raw| - 1] == l.raw;
    assert s[1..][|l.raw| - 1..] == s[|l.raw|..];
    Assoc(s[..1], s[1..][..|l.raw| - 1], Normalize(s[|l.raw|..]));
  }

  lemma OneLetter(x: string)
    requires |x| == 1
    ensures Rewrite(x) == x
  {
    assert |ToLower(x)| == 1;
  }

  lemma WordSplits(s: string, l: Lexeme)
    requires Reads(s, l) && l.token.Word?
    ensures l.raw == l.token.text && Normalize(s) == Normalize(l.raw) + Normalize(s[|l.raw|..])
  {
    hide ScanQuoted, Normalize, RunLength, WordLength, DollarNumber, EndsInExponent, Settled, Unquoted;
    var n := |l.raw|;
    WordUnquoted(s);
    UnquotedSettled(l.raw);
    assert s == l.raw + s[n..];
    NormalizeSplit(l.raw, s[n..]);
  }

  lemma WordUnquoted(s: string)
    ensures Unquoted(s[..WordLength(s, Bound)])
    ensures 0 < WordLength(s, Bound) ==> !IsQuote(s[WordLength(s, Bound) - 1])
    ensures WordLength(s, Bound) < |s| ==> !IdentChar(s[WordLength(s, Bound)])
  {
    hide RunLength, WordLength, EndsInExponent, B.GluesSign;
    var n := WordLength(s, Bound);
    B.WordBytes(s, Bound);
    if n < |s| { B.WordEnds(s, Bound); }
    forall k | 0 <= k < n ensures !IsQuote(s[k]) {
      assert WordChar(s[k], Bound) || IsSign(s[k]);
    }
  }

  lemma CommentSplits(s: string, l: Lexeme)
    requires Reads(s, l) && l.token.Comment? && Calm(l)
    ensures l.raw == l.token.text && Normalize(s) == Normalize(l.raw) + Normalize(s[|l.raw|..])
  {
    hide ScanQuoted, Normalize, RunLength, WordLength, IndexByte, IndexPair, DollarNumber, Settled;
    var n := |l.raw|;
    assert s == l.raw + s[n..];
    assert n < |s| ==> !IdentChar(l.raw[n - 1]) && !IsQuote(l.raw[n - 1]);
    NormalizeSplit(l.raw, s[n..]);
  }

  lemma PunctSplits(s: string, l: Lexeme)
    requires Reads(s, l) && l.token.Punct?
    ensures Normalize(s) == l.raw + Normalize(s[|l.raw|..])
  {
    hide ScanQuoted, Normalize, RunLength, WordLength, Rewrite, IdentLength, QuotedLength, DollarNumber;
    NormalizeUnfold(s);
    assert PieceLength(s) == 1;
    OneLetter(s[..1]);
  }

  // ---------------------------------------------------- what a piece becomes

  lemma {:induction false} NoAliasKept(x: string)
    requires !HasAlias(x)
    ensures Normalize(x) == x
    decreases |x|
  {
    hide PieceLength, IsAlias, Normalize;
    NormalizeUnfold(x);
    if x != "" {
      var n := PieceLength(x);
      PiecesSplit(x);
      assert !IsAlias(Pieces(x)[0]);
      forall k | 0 <= k < |Pieces(x[n..])| ensures !IsAlias(Pieces(x[n..])[k]) {
        assert !IsAlias(Pieces(x)[k + 1]);
      }
      NoAliasKept(x[n..]);
    }
  }

  lemma PiecesSplit(x: string)
    requires x != ""
    ensures var n := PieceLength(x); Pieces(x) == [x[..n]] + Pieces(x[n..])
  {
    hide PieceLength;
  }

  lemma StartsWithB(x: string)
    requires IsAlias(x)
    ensures x != "" && (x[0] == 'b' || x[0] == 'B')
  {
    assert x != "" by { assert |ToLower(x)| == |x|; }
    if Lower(x[0]) != 'b' { NotAlias(x); }
  }

  /** A text with an alias in it is changed, and no longer starts the result. */
  lemma {:induction false} AliasChanges(x: string, r: string)
    requires HasAlias(x)
    ensures !(x <= Normalize(x) + r)
    decreases |x|
  {
    hide PieceLength, IsAlias, Normalize, Rewrite;
    NormalizeUnfold(x);
    assert x != "" by { NoPieces(); }
    var n := PieceLength(x);
    PiecesSplit(x);
    var out := Normalize(x) + r;
    if IsAlias(x[..n]) {
      StartsWithB(x[..n]);
      RewriteAlias(x[..n]);
      assert out[0] == 't';
    } else {
      OtherText(x[..n]);
      var k :| 0 <= k < |Pieces(x)| && IsAlias(Pieces(x)[k]);
      assert Pieces(x[n..])[k - 1] == Pieces(x)[k];
      AliasChanges(x[n..], r);
      Assoc(x[..n], Normalize(x[n..]), r);
      assert x == x[..n] + x[n..];
      SamePrefix(x[..n], x[n..], Normalize(x[n..]) + r);
    }
  }

  lemma SamePrefix(a: string, x: string, y: string)
    ensures a + x <= a + y <==> x <= y
  {
    if a + x <= a + y { assert x == (a + y)[|a|..|a| + |x|] == y[..|x|]; }
  }

  lemma NoPieces()
    ensures !HasAlias("")
  {
  }

  lemma OtherText(x: string)
    requires !IsAlias(x)
    ensures Rewrite(x) == x
  {
  }

  lemma AliasLetters(x: string)
    requires IsAlias(x)
    ensures x != "" && forall k :: 0 <= k < |x| ==> IsLetter(x[k])
  {
    AliasIsIdentifier(x);
  }

  lemma AliasAlone(x: string)
    requires IsAlias(x)
    ensures Normalize(x) == "tinyint(1)"
  {
    hide Normalize, IsAlias, IdentLength, QuotedLength;
    RewriteAlias(x);
    AliasLetters(x);
    WordRun(x[1..]);
    assert PieceLength(x) == |x|;
    NormalizeUnfold(x);
    NormalizeUnfold("");
    assert x[..|x|] == x && x[|x|..] == "";
    assert "tinyint(1)" + "" == "tinyint(1)";
  }

  // ------------------------------------------------------------ token by token

  lemma {:induction false} SameRun(s: string)
    ensures RunLength(s, Bound) == RunLength(s, Query(MySql))
  {
    if s != "" { SameRun(s[1..]); }
  }

  /** But for `?`, bound text is read as a MySQL query. */
  lemma MySqlReads(s: string, l: Lexeme)
    requires Reads(s, l) && s[0] != '?'
    ensures B.Reads(s, MySql, 0, l)
    ensures l.token.Str? ==> IsQuote(l.token.quote)
  {
    hide ScanQuoted, RunLength, IndexByte, IndexPair, DollarNumber;
    SameRun(s);
  }

  /** A token of bound text is read again when it stands alone. */
  lemma AloneAgain(s: string, l: Lexeme)
    requires Reads(s, l)
    ensures B.Single(l.raw, l.token)
  {
    hide ScanQuoted, WordLength, IndexByte, IndexPair, DollarNumber, B.Single;
    if s[0] == '?' {
      B.PunctSingle('?');
      assert s[..1] == ['?'];
    } else {
      MySqlReads(s, l);
      B.RenderedSingle(s, MySql, 0, l, []);
    }
  }

  /** Nor does the rewritten rest run into it. */
  lemma StillApart(s: string, l: Lexeme)
    requires Reads(s, l)
    ensures !B.Glues(l.token, Normalize(s[|l.raw|..]))
  {
    hide ScanQuoted, WordLength, IndexByte, IndexPair, DollarNumber, Normalize, B.GluesChar, EndsInExponent;
    var rest := s[|l.raw|..];
    FirstByte(rest);
    if B.GluesSign(l.token, Normalize(rest)) {
      SignKept(rest);
      B.WordEnds(s, Bound);
    }
    if rest != "" {
      assert rest[0] == s[|l.raw|];
      if s[0] == '?' {
        MarkGluesNothing(rest[0]);
        assert l.token == Punct('?');
      } else {
        MySqlReads(s, l);
        B.NextByteApart(s, MySql, 0, l);
      }
      LettersAlike(l.token, rest[0], Normalize(rest)[0]);
    }
  }

  lemma SignKept(s: string)
    requires |Normalize(s)| > 1 && IsSign(Normalize(s)[0]) && IsDigit(Normalize(s)[1])
    ensures |s| > 1 && IsSign(s[0]) && IsDigit(s[1])
  {
    hide Normalize;
    FirstByte(s);
    OneByte(s[0], s[1..]);
    HeadTail(s);
    FirstByte(s[1..]);
  }

  lemma MarkGluesNothing(c: char)
    ensures !B.GluesChar(Punct('?'), c)
  {
  }

  lemma LettersAlike(t: Token, c: char, d: char)
    requires t.Str? ==> IsQuote(t.quote)
    requires !B.GluesChar(t, c) && (c == d || (IsLetter(c) && d == 't'))
    ensures !B.GluesChar(t, d)
  {
    hide HasPrefix, HasSuffix;
  }

  /** What is emitted for a token that is kept: the text of what it should become. */
  lemma EmitsKept(s: string, l: Lexeme)
    requires Reads(s, l) && Calm(l) && Kept(l)
    ensures Normalize(s) == (if l.token.Word? && IsAlias(l.token.text) then "tinyint(1)" else l.raw)
                            + Normalize(s[|l.raw|..])
  {
    hide Next, Normalize, IsAlias, HasAlias, EvenBackslashes;
    QuoteTokens(s, l);
    match l.token {
      case Word(text) =>
        WordSplits(s, l);
        if IsAlias(text) { AliasAlone(text); } else { NoAliasKept(text); }
      case Comment(text) =>
        CommentSplits(s, l);
        NoAliasKept(text);
      case Punct(_) => PunctSplits(s, l);
      case Prefixed(_, _) => PrefixedKept(s, l);
      case Str(_, _) => QuotedKept(s, l);
      case Ident(_) => QuotedKept(s, l);
    }
  }

  lemma QuoteTokens(s: string, l: Lexeme)
    requires Reads(s, l)
    ensures l.token.Str? || l.token.Ident? ==> IsQuote(s[0])
    ensures !l.token.Param?
  {
    hide ScanQuoted, WordLength, IndexByte, IndexPair, DollarNumber;
  }

  lemma OneLexes(r: string)
    ensures BoundTokens("1" + (")" + r)) == B.Cons([Word("1"), Punct(')')], BoundTokens(r))
  {
    hide BoundTokens, B.Single, B.Cons, EndsInExponent;
    B.WordSingle("1");
    B.PunctSingle(')');
    B.SingleLexes("1", Word("1"), ")" + r);
    B.SingleLexes(")", Punct(')'), r);
    B.ConsTwice([Word("1")], [Punct(')')], BoundTokens(r));
    assert [Word("1")] + [Punct(')')] == [Word("1"), Punct(')')];
  }

  lemma AliasLexes(r: string)
    ensures BoundTokens("tinyint(1)" + r) == B.Cons([Word("tinyint"), Punct('('), Word("1"), Punct(')')], BoundTokens(r))
  {
    hide BoundTokens, B.Single, B.Cons, EndsInExponent;
    var a, b := "(" + ("1" + (")" + r)), "1" + (")" + r);
    B.WordSingle("tinyint");
    B.PunctSingle('(');
    B.SingleLexes("tinyint", Word("tinyint"), a);
    B.SingleLexes("(", Punct('('), b);
    OneLexes(r);
    TinyintText(r);
    B.ConsTwice([Punct('(')], [Word("1"), Punct(')')], BoundTokens(r));
    B.ConsTwice([Word("tinyint")], [Punct('(')] + [Word("1"), Punct(')')], BoundTokens(r));
    assert [Word("tinyint")] + ([Punct('(')] + [Word("1"), Punct(')')])
        == [Word("tinyint"), Punct('('), Word("1"), Punct(')')];
  }

  lemma TinyintText(r: string)
    ensures "tinyint(1)" + r == "tinyint" + ("(" + ("1" + (")" + r)))
  {
  }

  lemma KeptLexes(s: string, l: Lexeme)
    requires Reads(s, l) && Calm(l) && Kept(l)
    ensures BoundTokens(Normalize(s)) == B.Cons(Retype(l.token), BoundTokens(Normalize(s[|l.raw|..])))
  {
    hide Next, Normalize, IsAlias, HasAlias, BoundTokens, B.Single, B.Cons, Calm, Kept, B.Glues;
    EmitsKept(s, l);
    if l.token.Word? { AliasWords(l.token.text); }
    if l.token.Word? && IsAlias(l.token.text) {
      AliasLexes(Normalize(s[|l.raw|..]));
    } else {
      AloneAgain(s, l);
      StillApart(s, l);
      B.SingleLexes(l.raw, l.token, Normalize(s[|l.raw|..]));
    }
  }

  lemma LostBreaks(s: string, l: Lexeme)
    requires Reads(s, l) && Calm(l) && !Kept(l)
    ensures Retype(l.token) == [l.token] && !B.StartsWith(BoundTokens(Normalize(s)), [l.token])
  {
    hide Next, Normalize, HasAlias, BoundTokens, B.StartsWith, IsAlias;
    if l.token.Word? {
      WordSplits(s, l);
      AliasWords(l.token.text);
    } else {
      CommentSplits(s, l);
    }
    AliasChanges(l.raw, Normalize(s[|l.raw|..]));
    if B.StartsWith(BoundTokens(Normalize(s)), [l.token]) { B.TextStarts(Normalize(s), l.token); }
  }

  lemma ConditionsSplit(l: Lexeme, ls: seq<Lexeme>)
    ensures AllCalm([l] + ls) <==> Calm(l) && AllCalm(ls)
    ensures AllKept([l] + ls) <==> Kept(l) && AllKept(ls)
  {
    hide Calm, Kept;
    var all := [l] + ls;
    assert all[0] == l && forall k :: 0 <= k < |ls| ==> all[k + 1] == ls[k];
    assert forall k :: 1 <= k < |all| ==> all[k] == ls[k - 1];
  }

  lemma {:induction false} NormalizeRetypes(s: string)
    requires Lex(s, Bound, 0).Some? && AllCalm(Lex(s, Bound, 0).value)
    ensures var ls := Lex(s, Bound, 0).value;
            BoundTokens(Normalize(s)) == Some(RetypeAll(ls)) <==> AllKept(ls)
    decreases |s|
  {
    hide Lex, Next, Normalize, Calm, Kept, Retype, BoundTokens;
    BoundUnfold(s);
    if s == "" {
      NormalizeUnfold("");
      B.TokensUnfold("");
    } else {
      var l := Next(s, Bound, 0).value;
      var rest := s[|l.raw|..];
      var ls := Lex(rest, Bound, 0).value;
      assert ([l] + ls)[0] == l && ([l] + ls)[1..] == ls;
      ConditionsSplit(l, ls);
      NormalizeRetypes(rest);
      if Kept(l) {
        KeptLexes(s, l);
        B.ConsStarts(Retype(l.token), BoundTokens(Normalize(rest)), RetypeAll(ls));
      } else {
        LostBreaks(s, l);
        B.ConsStarts(Retype(l.token), None, RetypeAll(ls));
      }
    }
  }

  /** In CREATE TABLE text, where no quoted region runs out of its token, the words
      `bool` and `boolean` become `tinyint(1)` and every other token stays, if and
      only if no longer word and, outside quotes, no comment has an alias in it. */
  lemma NormalizePreservesTokens(q: string)
    requires IsCreateTable(q)
    requires Lex(q, Bound, 0).Some? && AllCalm(Lex(q, Bound, 0).value)
    ensures var ls := Lex(q, Bound, 0).value;
            BoundTokens(NormalizeTypes(q)) == Some(RetypeAll(ls)) <==> AllKept(ls)
  {
    hide Lex, Normalize, AllCalm, AllKept, RetypeAll, IsCreateTable;
    NormalizeRetypes(q);
  }

  /** A quote left open in a comment starts a region that runs out of it, in which
      the scanner rewrites nothing: the word after this comment keeps its alias. */
  lemma QuoteInComment()
    ensures Lex("/*'*/bool", Bound, 0) == Some([Lexeme(Comment("/*'*/"), "/*'*/"), Lexeme(Word("bool"), "bool")])
    ensures Normalize("/*'*/bool") == "/*'*/bool"
  {
    hide Lex, Normalize, IndexPair;
    CommentAndWord();
    QuoteSwallows();
  }

  lemma CommentAndWord()
    ensures Lex("/*'*/bool", Bound, 0) == Some([Lexeme(Comment("/*'*/"), "/*'*/"), Lexeme(Word("bool"), "bool")])
  {
    hide Lex, RunLength, ScanQuoted;
    var q := "/*'*/bool";
    assert q[2..] == "'*/bool" && q[5..] == "bool" && q[..5] == "/*'*/" && "bool"[4..] == "";
    assert IndexPair(q[2..], '*', '/') == Some(1) by { assert q[2..][1..] == "*/bool"; }
    B.WordSingle("bool");
    BoundUnfold(q);
    BoundUnfold("bool");
    BoundUnfold("");
    var a, b := Lexeme(Comment("/*'*/"), "/*'*/"), Lexeme(Word("bool"), "bool");
    assert [a] + ([b] + []) == [a, b];
  }

  lemma QuoteSwallows()
    ensures Normalize("/*'*/bool") == "/*'*/bool"
  {
    hide Normalize, QuotedLength;
    var q := "/*'*/bool";
    assert q == ['/'] + "*'*/bool" && "*'*/bool" == ['*'] + "'*/bool" && "'*/bool"[1..] == "*/bool";
    OneByte('/', "*'*/bool");
    OneByte('*', "'*/bool");
    NormalizeUnfold("'*/bool");
    NormalizeUnfold("");
    Unclosed("*/bool");
    assert PieceLength("'*/bool") == 7;
    assert "'*/bool"[..7] == "'*/bool" && "'*/bool"[7..] == "";
    QuoteIsNoAlias("'*/bool");
    assert "'*/bool" + "" == "'*/bool";
  }

  lemma {:induction false} Unclosed(t: string)
    requires '\'' !in t && '\\' !in t
    ensures QuotedLength(t, '\'') == |t|
  {
    if t != "" { Unclosed(t[1..]); }
  }
}
