/** Binding preserves the token structure of a query, up to an exact condition:
    no literal put in place of a placeholder may run into its neighbours. */
module BinderTokens {
  import opened Prelude
  import opened Literals
  import opened Lexer
  import opened Binder

  // ------------------------------------------------------- tokens of bound text

  function Cons(ts: seq<Token>, r: Option<seq<Token>>): Option<seq<Token>> {
    match r case None => None case Some(us) => Some(ts + us)
  }

  lemma ConsTwice(a: seq<Token>, b: seq<Token>, r: Option<seq<Token>>)
    ensures Cons(a, Cons(b, r)) == Cons(a + b, r)
  {
    if r.Some? { Assoc(a, b, r.value); }
  }

  predicate StartsWith(r: Option<seq<Token>>, ts: seq<Token>) {
    r.Some? && ts <= r.value
  }

  lemma TokensUnfold(s: string)
    ensures s == "" ==> BoundTokens(s) == Some([])
    ensures s != "" && Next(s, Bound, 0).None? ==> BoundTokens(s) == None
    ensures s != "" && Next(s, Bound, 0).Some? ==>
              var l := Next(s, Bound, 0).value;
              BoundTokens(s) == Cons([l.token], BoundTokens(s[|l.raw|..]))
  {
    hide Next;
    if s != "" && Next(s, Bound, 0).Some? {
      var l := Next(s, Bound, 0).value;
      var r := Lex(s[|l.raw|..], Bound, 0);
      assert Lex(s, Bound, 0) == match r case None => None case Some(ls) => Some([l] + ls);
      if r.Some? { assert Tokens([l] + r.value) == [l.token] + Tokens(r.value); }
    }
  }

  /** `x` on its own is the single token `t` of bound text. */
  predicate Single(x: string, t: Token) {
    x != "" && !t.Param? && Next(x, Bound, 0) == Some(Lexeme(t, x))
  }

  /** The byte `c`, written directly after token `t`, becomes part of it or
      turns it into a comment. */
  predicate GluesChar(t: Token, c: char) {
    match t
    case Word(text) => WordChar(c, Bound) || (c == '\'' && |text| == 1 && IsPrefix(text[0]))
    case Str(quote, _) => c == quote
    case Prefixed(_, _) => c == '\''
    case Ident(_) => c == '`'
    case Punct(p) => (p == '-' && c == '-') || (p == '/' && c == '*')
    case Comment(text) => HasPrefix(text, "--") && !HasSuffix(text, "\n")
    case Param(_) => false
  }

  /** A sign and a digit, written directly after a number with its exponent
      mark, become part of the number. */
  predicate GluesSign(t: Token, rest: string) {
    |rest| > 1 && IsSign(rest[0]) && IsDigit(rest[1]) && t.Word? && EndsInExponent(t.text)
  }

  predicate Glues(t: Token, rest: string) {
    rest != "" && (GluesChar(t, rest[0]) || GluesSign(t, rest))
  }

  lemma RunUnfold(s: string, lang: Lang)
    ensures RunLength(s, lang) == if s != "" && WordChar(s[0], lang) then 1 + RunLength(s[1..], lang) else 0
  {
  }

  lemma {:induction false} RunAppend(x: string, rest: string)
    ensures RunLength(x + rest, Bound) == if RunLength(x, Bound) == |x| then |x| + RunLength(rest, Bound)
                                          else RunLength(x, Bound)
    decreases |x|
  {
    hide *;
    RunUnfold(x, Bound);
    if x == "" {
      assert x + rest == rest;
    } else {
      RunUnfold(x + rest, Bound);
      AppendTail(x, rest);
      RunAppend(x[1..], rest);
    }
  }

  lemma ExponentBytes(w: string)
    requires EndsInExponent(w)
    ensures |w| > 1 && forall k :: 0 <= k < |w| ==> WordChar(w[k], Query(Postgres))
  {
    hide DigitsLength;
    var m := w[..|w| - 1];
    var d := DigitsLength(m);
    forall k | 0 <= k < |m| ensures IsDigit(w[k]) || w[k] == '.' {
      assert w[k] == m[k];
      if k < d { assert m[k] == m[..d][k]; } else if k > d { assert m[k] == m[d + 1..][k - d - 1]; }
    }
  }

  lemma SignEndsExponent(w: string, k: nat)
    requires k < |w| && !WordChar(w[k], Query(Postgres))
    ensures !EndsInExponent(w)
  {
    hide EndsInExponent;
    if EndsInExponent(w) { ExponentBytes(w); }
  }

  /** A word is continued exactly by the text that glues to it. */
  lemma SignedRunAppend(x: string, rest: string)
    requires x != "" && SignedRun(x, Bound) == |x|
    ensures var n := SignedRun(x + rest, Bound);
            n >= |x| && (n > |x| <==> rest != "" && (WordChar(rest[0], Bound) || GluesSign(Word(x), rest)))
  {
    hide RunLength, EndsInExponent;
    if RunLength(x, Bound) == |x| { WholeRunAppend(x, rest); } else { SignedAppend(x, rest); }
  }

  lemma WholeRunAppend(x: string, rest: string)
    requires RunLength(x, Bound) == |x|
    ensures var n := SignedRun(x + rest, Bound);
            n >= |x| && (n > |x| <==> rest != "" && (WordChar(rest[0], Bound) || GluesSign(Word(x), rest)))
  {
    hide RunLength, EndsInExponent;
    var y := x + rest;
    RunAppend(x, rest);
    RunUnfold(rest, Bound);
    assert y[..|x|] == x;
    assert |rest| > 1 ==> y[|x|] == rest[0] && y[|x| + 1] == rest[1];
  }

  lemma SignedAppend(x: string, rest: string)
    requires RunLength(x, Bound) < |x| == SignedRun(x, Bound)
    ensures SignedRun(x + rest, Bound) == |x| + RunLength(rest, Bound)
    ensures RunLength(rest, Bound) > 0 <==> rest != "" && (WordChar(rest[0], Bound) || GluesSign(Word(x), rest))
  {
    hide RunLength, EndsInExponent;
    var y, n := x + rest, RunLength(x, Bound);
    RunAppend(x, rest);
    RunUnfold(rest, Bound);
    AppendAt(x, rest, n);
    RunAppend(x[n + 1..], rest);
    SignEndsExponent(x, n);
  }

  lemma AppendAt(x: string, rest: string, n: nat)
    requires n + 1 < |x|
    ensures var y := x + rest;
            y[..n] == x[..n] && y[n] == x[n] && y[n + 1] == x[n + 1] && y[n + 1..] == x[n + 1..] + rest
  {
  }

  lemma {:induction false} RunAtLeast(s: string, m: nat, lang: Lang)
    requires m <= |s| && forall k :: 0 <= k < m ==> WordChar(s[k], lang)
    ensures RunLength(s, lang) >= m
  {
    if m > 0 {
      forall k | 0 <= k < m - 1 ensures WordChar(s[1..][k], lang) {
        assert s[1..][k] == s[k + 1];
      }
      RunAtLeast(s[1..], m - 1, lang);
    }
  }

  /** A word consists of word bytes, but for the sign of an exponent. */
  lemma WordBytes(s: string, lang: Lang)
    ensures forall k :: 0 <= k < WordLength(s, lang) && k != RunLength(s, lang) ==> WordChar(s[k], Bound)
    ensures RunLength(s, lang) < WordLength(s, lang) && !WordChar(s[RunLength(s, lang)], Bound) ==>
              SignedAt(s, RunLength(s, lang))
  {
    hide RunLength, EndsInName, EndsInExponent, Mantissa;
    var m, r, n := RunLength(s, lang), SignedRun(s, lang), WordLength(s, lang);
    forall k | 0 <= k < n && k != m ensures WordChar(s[k], Bound) {
      if m < k < r { assert s[k] == s[m + 1..][k - m - 1]; }
      if k > r { assert s[k] == s[r + 1..][k - r - 1]; }
    }
  }

  /** Nothing after a word continues it. */
  lemma WordEnds(s: string, lang: Lang)
    requires WordLength(s, lang) < |s| && (lang == Query(Postgres) ==> s[WordLength(s, lang)] != '$')
    ensures !WordChar(s[WordLength(s, lang)], Bound)
    ensures !GluesSign(Word(s[..WordLength(s, lang)]), s[WordLength(s, lang)..])
  {
    hide RunLength, EndsInName, EndsInExponent;
    var m, r, n := RunLength(s, lang), SignedRun(s, lang), WordLength(s, lang);
    if n > r {
      assert s[n] == s[r + 1..][n - r - 1];
      SignEndsExponent(s[..n], r);
    } else if n > m {
      assert s[n] == s[m + 1..][n - m - 1];
      SignEndsExponent(s[..n], m);
    }
  }

  /** A word is read whole when it stands alone. */
  lemma WordAlone(s: string, lang: Lang)
    ensures var x := s[..WordLength(s, lang)]; SignedRun(x, Bound) == |x|
  {
    hide RunLength, EndsInName, EndsInExponent;
    WordBytes(s, lang);
    var m, n := RunLength(s, lang), WordLength(s, lang);
    var x := s[..n];
    if m < n && !WordChar(s[m], Bound) {
      RunAtLeast(x, m, Bound);
      assert x[..m] == s[..m];
      assert s[m + 1..] != "" && s[m + 1..][0] == s[m + 1];
      RunUnfold(s[m + 1..], lang);
      var tail := x[m + 1..];
      forall k | 0 <= k < |tail| ensures WordChar(tail[k], Bound) { assert tail[k] == s[m + 1 + k]; }
      RunAtLeast(tail, |tail|, Bound);
    } else {
      RunAtLeast(x, n, Bound);
    }
  }

  lemma WordSingle(x: string)
    requires x != "" && WordChar(x[0], Bound) && SignedRun(x, Bound) == |x| && !AtPrefixed(x)
    ensures Single(x, Word(x))
  {
    hide SignedRun;
    assert x[..SignedRun(x, Bound)] == x;
  }

  lemma {:induction false} IndexByteAppend(x: string, rest: string, c: char)
    requires IndexByte(x, c).Some?
    ensures IndexByte(x + rest, c) == IndexByte(x, c)
    decreases |x|
  {
    assert (x + rest)[0] == x[0] && (x + rest)[1..] == x[1..] + rest;
    if x[0] != c { IndexByteAppend(x[1..], rest, c); }
  }

  lemma {:induction false} IndexPairAppend(x: string, rest: string, a: char, b: char)
    requires IndexPair(x, a, b).Some?
    ensures IndexPair(x + rest, a, b) == IndexPair(x, a, b)
    decreases |x|
  {
    assert (x + rest)[0] == x[0] && (x + rest)[1] == x[1] && (x + rest)[1..] == x[1..] + rest;
    if !(x[0] == a && x[1] == b) { IndexPairAppend(x[1..], rest, a, b); }
  }

  lemma SingleQuoted(x: string, t: Token, rest: string)
    requires Single(x, t) && IsQuote(x[0])
    ensures !Glues(t, rest) ==> Next(x + rest, Bound, 0) == Some(Lexeme(t, x))
    ensures Glues(t, rest) ==> Next(x + rest, Bound, 0).None? || Next(x + rest, Bound, 0).value.token != t
  {
    hide ScanQuoted;
    var s, c := x[1..], x[0];
    var esc := Escapes(c, Bound);
    assert (x + rest)[1..] == s + rest && (x + rest)[0] == c;
    assert s[..|s|] == s;
    var q := ScanQuoted(s, c, esc).value;
    assert q.len == |s| by { assert |x[..q.len + 1]| == |x|; }
    if Glues(t, rest) {
      ScanQuotedMerges(s, c, esc, rest);
    } else {
      ScanQuotedLocal(s, c, esc, rest);
      DropPrefix(x, rest);
    }
  }

  lemma SinglePrefixed(x: string, t: Token, rest: string)
    requires Single(x, t) && AtPrefixed(x)
    ensures !Glues(t, rest) ==> Next(x + rest, Bound, 0) == Some(Lexeme(t, x))
    ensures Glues(t, rest) ==> Next(x + rest, Bound, 0).None? || Next(x + rest, Bound, 0).value.token != t
  {
    hide ScanQuoted;
    var s := x[2..];
    assert (x + rest)[2..] == s + rest && (x + rest)[0] == x[0] && (x + rest)[1] == x[1];
    assert s[..|s|] == s;
    var q := ScanQuoted(s, '\'', true).value;
    assert q.len == |s| by { assert |x[..q.len + 2]| == |x|; }
    if Glues(t, rest) {
      ScanQuotedMerges(s, '\'', true, rest);
    } else {
      ScanQuotedLocal(s, '\'', true, rest);
      DropPrefix(x, rest);
    }
  }

  lemma SingleWord(x: string, t: Token, rest: string)
    requires Single(x, t) && WordChar(x[0], Bound) && !AtPrefixed(x)
    ensures !Glues(t, rest) ==> Next(x + rest, Bound, 0) == Some(Lexeme(t, x))
    ensures Glues(t, rest) ==> Next(x + rest, Bound, 0).None? || Next(x + rest, Bound, 0).value.token != t
  {
    hide SignedRun, ScanQuoted, IndexByte, IndexPair, EndsInExponent;
    var y := x + rest;
    assert y[0] == x[0] && (|x| > 1 ==> y[1] == x[1]) && (|x| == 1 && rest != "" ==> y[1] == rest[0]);
    DropPrefix(x, rest);
    assert SignedRun(x, Bound) == |x| by { assert |x[..SignedRun(x, Bound)]| == |x|; }
    SignedRunAppend(x, rest);
    assert |x| > 1 ==> x[1] != '\'' || !IsPrefix(x[0]);
  }

  lemma SingleComment(x: string, t: Token, rest: string)
    requires Single(x, t) && (AtLineComment(x) || AtBlockComment(x))
    ensures !Glues(t, rest) ==> Next(x + rest, Bound, 0) == Some(Lexeme(t, x))
    ensures Glues(t, rest) ==> Next(x + rest, Bound, 0).None? || Next(x + rest, Bound, 0).value.token != t
  {
    hide IndexByte, IndexPair;
    var y := x + rest;
    assert y[0] == x[0] && y[1] == x[1];
    DropPrefix(x, rest);
    if AtLineComment(x) {
      assert x == t.text && HasPrefix(x, "--");
      if IndexByte(x, '\n').Some? {
        IndexByteAppend(x, rest, '\n');
        assert HasSuffix(x, "\n");
      } else if rest == "" {
        assert y == x;
      } else {
        LineCommentGrows(x, rest);
        assert x[|x| - 1] in x && x[|x| - 1..] == [x[|x| - 1]];
      }
    } else {
      assert y[2..] == x[2..] + rest;
      IndexPairAppend(x[2..], rest, '*', '/');
      assert x == t.text && !HasPrefix(x, "--") by { assert x[..2][0] == '/' && "--"[0] == '-'; }
    }
  }

  lemma {:induction false} LineCommentGrows(x: string, rest: string)
    requires rest != "" && IndexByte(x, '\n').None?
    ensures IndexByte(x + rest, '\n').Some? ==> IndexByte(x + rest, '\n').value >= |x|
    decreases |x|
  {
    if x != "" {
      assert (x + rest)[0] == x[0] && (x + rest)[1..] == x[1..] + rest;
      LineCommentGrows(x[1..], rest);
    }
  }

  /** A token read on its own is read again in front of any text that does not
      glue to it, and is not read in front of text that does. */
  lemma SingleNext(x: string, t: Token, rest: string)
    requires Single(x, t)
    ensures !Glues(t, rest) ==> Next(x + rest, Bound, 0) == Some(Lexeme(t, x))
    ensures Glues(t, rest) ==> Next(x + rest, Bound, 0).None? || Next(x + rest, Bound, 0).value.token != t
  {
    hide RunLength, ScanQuoted, IndexByte, IndexPair;
    if IsQuote(x[0]) {
      SingleQuoted(x, t, rest);
    } else if AtLineComment(x) || AtBlockComment(x) {
      SingleComment(x, t, rest);
    } else if AtPrefixed(x) {
      SinglePrefixed(x, t, rest);
    } else if WordChar(x[0], Bound) {
      SingleWord(x, t, rest);
    } else {
      var y := x + rest;
      assert y[0] == x[0] && (|x| == 1 && rest != "" ==> y[1] == rest[0]);
      DropPrefix(x, rest);
    }
  }

  lemma SingleLexes(x: string, t: Token, rest: string)
    requires Single(x, t)
    ensures !Glues(t, rest) ==> BoundTokens(x + rest) == Cons([t], BoundTokens(rest))
    ensures Glues(t, rest) ==> !StartsWith(BoundTokens(x + rest), [t])
  {
    hide Next, BoundTokens;
    SingleNext(x, t, rest);
    TokensUnfold(x + rest);
    DropPrefix(x, rest);
    var l := Next(x + rest, Bound, 0);
    if l.Some? { FirstOfCons(l.value.token, BoundTokens((x + rest)[|l.value.raw|..]), t); }
  }

  lemma FirstOfCons(u: Token, r: Option<seq<Token>>, t: Token)
    ensures StartsWith(Cons([u], r), [t]) ==> u == t
  {
    if r.Some? { assert ([u] + r.value)[0] == u; }
  }

  // ----------------------------------------------------------- literal tokens

  /** Text of word bytes and single signs, ending in a word byte: the shape of
      every printed number, truth value and null. */
  predicate Plain(s: string) {
    && s != "" && WordChar(s[|s| - 1], Bound) && '$' !in s
    && (forall k :: 0 <= k < |s| ==> WordChar(s[k], Bound) || IsSign(s[k]))
    && (forall k :: 0 <= k < |s| - 1 && IsSign(s[k]) ==> !IsSign(s[k + 1]))
  }

  function PlainTokens(s: string): (ts: seq<Token>)
    requires s != ""
    ensures ts != []
    decreases |s|
  {
    var n := if WordChar(s[0], Bound) then WordLength(s, Bound) else 1;
    var t := if WordChar(s[0], Bound) then Word(s[..n]) else Punct(s[0]);
    if n < |s| then [t] + PlainTokens(s[n..]) else [t]
  }

  lemma {:induction false} PlainLexes(s: string, rest: string)
    requires Plain(s)
    ensures var ts := PlainTokens(s);
            && ts[|ts| - 1].Word?
            && (!Glues(ts[|ts| - 1], rest) ==> BoundTokens(s + rest) == Cons(ts, BoundTokens(rest)))
            && (Glues(ts[|ts| - 1], rest) ==> !StartsWith(BoundTokens(s + rest), ts))
    decreases |s|
  {
    hide BoundTokens, Next, WordLength, PlainTokens, Single, StartsWith, Cons, Glues;
    var n := if WordChar(s[0], Bound) then WordLength(s, Bound) else 1;
    var t := if WordChar(s[0], Bound) then Word(s[..n]) else Punct(s[0]);
    PlainHead(s, n, t);
    if n == |s| {
      assert s[..n] == s;
      SingleLexes(s, t, rest);
    } else {
      PlainLexes(s[n..], rest);
      SplitAppend(s, n, rest);
      GluesFirst(t, s[n..], rest);
      SingleLexes(s[..n], t, s[n..] + rest);
      ConsTwice([t], PlainTokens(s[n..]), BoundTokens(rest));
      PrefixOfCons(t, PlainTokens(s[n..]), BoundTokens(s[n..] + rest));
    }
  }

  lemma SplitAppend(s: string, n: nat, rest: string)
    requires n <= |s|
    ensures s + rest == s[..n] + (s[n..] + rest)
  {
  }

  lemma GluesFirst(t: Token, x: string, y: string)
    requires |x| > 1 || (x != "" && !IsSign(x[0]))
    ensures Glues(t, x + y) == Glues(t, x)
  {
    assert (x + y)[0] == x[0] && (|x| > 1 ==> (x + y)[1] == x[1]);
  }

  lemma PrefixOfCons(t: Token, ts: seq<Token>, r: Option<seq<Token>>)
    ensures StartsWith(Cons([t], r), [t] + ts) ==> StartsWith(r, ts)
  {
    if r.Some? {
      var whole := [t] + r.value;
      assert whole[1..] == r.value;
      if [t] + ts <= whole { assert ts == whole[1..1 + |ts|]; }
    }
  }

  lemma PlainHead(s: string, n: nat, t: Token)
    requires s != "" && Plain(s)
    requires n == if WordChar(s[0], Bound) then WordLength(s, Bound) else 1
    requires t == if WordChar(s[0], Bound) then Word(s[..n]) else Punct(s[0])
    ensures 1 <= n <= |s| && Single(s[..n], t) && (n == |s| ==> t.Word?)
    ensures n < |s| ==> Plain(s[n..]) && !Glues(t, s[n..]) && (|s[n..]| > 1 || !IsSign(s[n]))
    ensures PlainTokens(s) == if n < |s| then [t] + PlainTokens(s[n..]) else [t]
  {
    hide RunLength, SignedRun, PlainTokens, Single, Plain, EndsInExponent;
    PlainTokensUnfold(s);
    PlainStart(s);
    if WordChar(s[0], Bound) {
      RunUnfold(s, Bound);
      WordAlone(s, Bound);
      PlainBytes(s);
      if n < |s| { WordEnds(s, Bound); }
      WordSingle(s[..n]);
    } else {
      assert s[..1] == [s[0]];
      PunctSingle(s[0]);
    }
    if n < |s| { PlainTail(s, n); }
  }

  lemma PlainStart(s: string)
    requires Plain(s)
    ensures WordChar(s[0], Bound) || IsSign(s[0])
    ensures |s| == 1 ==> WordChar(s[0], Bound)
    ensures |s| > 1 && IsSign(s[0]) ==> !IsSign(s[1])
  {
    if |s| > 1 { assert IsSign(s[0]) ==> !IsSign(s[0 + 1]); }
  }

  lemma PlainTokensUnfold(s: string)
    requires s != ""
    ensures var n := if WordChar(s[0], Bound) then WordLength(s, Bound) else 1;
            var t := if WordChar(s[0], Bound) then Word(s[..n]) else Punct(s[0]);
            PlainTokens(s) == if n < |s| then [t] + PlainTokens(s[n..]) else [t]
  {
    hide RunLength;
    RunUnfold(s, Bound);
  }

  lemma PlainTail(s: string, n: nat)
    requires Plain(s) && n < |s|
    ensures Plain(s[n..]) && (n + 1 == |s| ==> !IsSign(s[n]))
  {
  }

  lemma PlainBytes(s: string)
    requires Plain(s)
    ensures forall k :: 0 <= k < |s| ==> s[k] != '\'' && s[k] != '$'
  {
  }

  predicate Printable(a: Arg) {
    a.FloatArg? ==> Plain(a.text) && Lower(a.text[|a.text| - 1]) != 'e'
  }

  /** The tokens an argument's literal stands for. */
  function LiteralTokens(a: Arg): (ts: seq<Token>)
    requires Supported(a) && Printable(a)
    ensures ts != []
  {
    match a
    case StrArg(s) => [Str('\'', s)]
    case BytesArg(s) => [Str('\'', s)]
    case NullArg => [Word("null")]
    case BoolArg(b) => [Word(if b then "true" else "false")]
    case IntArg(n) => if n < 0 then [Punct('-'), Word(NatText(-n))] else [Word(NatText(n))]
    case FloatArg(text) => PlainTokens(text)
  }

  lemma StringSingle(s: string)
    ensures Single(StringLiteral(s), Str('\'', s))
  {
    hide ScanQuoted, Escape;
    var x := StringLiteral(s);
    StringLiteralDecodes(s, ['\'']);
    assert x[1..] == Escape(s) + ['\''];
    assert x[..|Escape(s)| + 2] == x;
  }

  lemma WordTokens(s: string)
    requires s != "" && '$' !in s && forall k :: 0 <= k < |s| ==> WordChar(s[k], Bound)
    ensures Plain(s) && PlainTokens(s) == [Word(s)]
  {
    hide RunLength;
    assert s[..RunLength(s, Bound)] == s;
  }

  lemma DigitsPlain(n: nat, negative: bool)
    ensures var s := if negative then "-" + NatText(n) else NatText(n);
            Plain(s) && PlainTokens(s) == if negative then [Punct('-'), Word(NatText(n))] else [Word(NatText(n))]
  {
    hide NatText, RunLength;
    var d := NatText(n);
    WordTokens(d);
    if negative {
      var s := "-" + d;
      assert s[1..] == d && s[0] == '-' && s[1] == d[0];
    }
  }

  /** How the literal `x` of an argument meets the text after it. */
  predicate Lexes(x: string, ts: seq<Token>, rest: string)
    requires ts != []
  {
    && x != "" && x[0] != '*'
    && (!Glues(ts[|ts| - 1], rest) ==> BoundTokens(x + rest) == Cons(ts, BoundTokens(rest)))
    && (Glues(ts[|ts| - 1], rest) ==> !StartsWith(BoundTokens(x + rest), ts))
  }

  lemma StringLexes(s: string, rest: string)
    ensures Lexes(StringLiteral(s), [Str('\'', s)], rest)
  {
    hide BoundTokens, Escape;
    StringSingle(s);
    SingleLexes(StringLiteral(s), Str('\'', s), rest);
  }

  lemma NumberLexes(x: string, ts: seq<Token>, rest: string)
    requires Plain(x) && ts == PlainTokens(x)
    ensures ts[|ts| - 1].Word? && Lexes(x, ts, rest)
  {
    hide BoundTokens, PlainTokens;
    PlainLexes(x, rest);
  }

  /** A literal in front of any text is read as exactly its tokens, unless the
      text glues to its last one. */
  lemma LiteralLexes(a: Arg, rest: string)
    requires Supported(a) && Printable(a)
    ensures var ts := LiteralTokens(a);
            && Lexes(SqlLiteral(a).value, ts, rest)
            && (ts[|ts| - 1].Word? || (ts[|ts| - 1].Str? && ts[|ts| - 1].quote == '\''))
  {
    hide Lexes, NatText, PlainTokens, Plain;
    match a
    case StrArg(s) => StringLexes(s, rest);
    case BytesArg(s) => StringLexes(s, rest);
    case NullArg =>
      WordTokens("null");
      NumberLexes("null", [Word("null")], rest);
    case BoolArg(b) =>
      WordTokens("true");
      WordTokens("false");
      NumberLexes(if b then "true" else "false", LiteralTokens(a), rest);
    case IntArg(n) =>
      DigitsPlain(if n < 0 then -n else n, n < 0);
      NumberLexes(IntText(n), LiteralTokens(a), rest);
    case FloatArg(text) => NumberLexes(text, LiteralTokens(a), rest);
  }

  // -------------------------------------------------- source tokens and images

  /** What the query's author wrote: the tokens the bound text should have. */
  function Image(l: Lexeme, args: seq<Arg>): (ts: seq<Token>)
    requires Ready(l, args)
    ensures ts != []
  {
    if l.token.Param? then LiteralTokens(args[l.token.number - 1]) else [l.token]
  }

  predicate Ready(l: Lexeme, args: seq<Arg>) {
    l.token.Param? ==>
      var n := l.token.number;
      1 <= n <= |args| && Supported(args[n - 1]) && Printable(args[n - 1])
  }

  predicate AllReady(ls: seq<Lexeme>, args: seq<Arg>) {
    forall k :: 0 <= k < |ls| ==> Ready(ls[k], args)
  }

  function Expand(ls: seq<Lexeme>, args: seq<Arg>): seq<Token>
    requires AllReady(ls, args)
  {
    if ls == [] then [] else Image(ls[0], args) + Expand(ls[1..], args)
  }

  /** The bytes the binder emits for a token. */
  function Rendered(l: Lexeme, d: Dialect, args: seq<Arg>): string
    requires Ready(l, args)
  {
    match l.token
    case Param(n) => SqlLiteral(args[n - 1]).value
    case Str(_, value) => if d == Postgres then StringLiteral(value) else l.raw
    case Prefixed(p, value) => if d == Postgres then [p] + StringLiteral(value) else l.raw
    case Ident(value) => if d == Postgres then ['`'] + Double(value, '`') + ['`'] else l.raw
    case _ => l.raw
  }

  function Render(ls: seq<Lexeme>, d: Dialect, args: seq<Arg>): string
    requires AllReady(ls, args)
  {
    if ls == [] then "" else Rendered(ls[0], d, args) + Render(ls[1..], d, args)
  }

  /** `rest`, written after the image of `l`, does not glue to it. */
  predicate Clear(l: Lexeme, rest: string, args: seq<Arg>)
    requires Ready(l, args)
  {
    var ts := Image(l, args);
    !Glues(ts[|ts| - 1], rest)
  }

  /** Every literal stands clear of its neighbours: no token is glued to the text
      emitted after it. */
  predicate Delimited(ls: seq<Lexeme>, d: Dialect, args: seq<Arg>)
    requires AllReady(ls, args)
  {
    ls == [] || (Clear(ls[0], Render(ls[1..], d, args), args) && Delimited(ls[1..], d, args))
  }

  /** What the binder takes for something else: in PostgreSQL a name with a `$` in
      it, where it sees a placeholder; in MySQL an identifier in backticks with a
      backtick after an odd number of backslashes, which it takes for escaped. */
  predicate Misread(l: Lexeme, d: Dialect) {
    if d == Postgres then l.token.Word? && '$' in l.token.text
    else l.token.Ident? && l.raw != "" && !EvenBackslashes(l.raw[1..], '`')
  }

  predicate Legible(ls: seq<Lexeme>, d: Dialect) {
    forall k :: 0 <= k < |ls| ==> !Misread(ls[k], d)
  }

  // -------------------------------------------------------- one token at a time

  /** `l` is what the lexer reads at the start of `s`. */
  predicate Reads(s: string, d: Dialect, count: nat, l: Lexeme) {
    s != "" && Next(s, Query(d), count) == Some(l)
  }

  /** The first token of MySQL text is read again when it stands alone. */
  lemma MySqlQuotedSingle(s: string, count: nat, l: Lexeme)
    requires Reads(s, MySql, count, l) && IsQuote(s[0])
    ensures Single(l.raw, l.token)
  {
    hide ScanQuoted;
    var q := ScanQuoted(s[1..], s[0], Escapes(s[0], Bound)).value;
    ScanQuotedLocal(s[1..], s[0], Escapes(s[0], Bound), "");
    assert s[1..][..q.len] + "" == s[1..][..q.len] == l.raw[1..];
    assert l.raw[..q.len + 1] == l.raw;
  }

  lemma MySqlPrefixedSingle(s: string, count: nat, l: Lexeme)
    requires Reads(s, MySql, count, l) && l.token.Prefixed?
    ensures Single(l.raw, l.token)
  {
    hide ScanQuoted, WordLength;
    assert AtPrefixed(s);
    var q := ScanQuoted(s[2..], '\'', true).value;
    ScanQuotedLocal(s[2..], '\'', true, "");
    assert s[2..][..q.len] + "" == s[2..][..q.len] == l.raw[2..];
    assert l.raw[..q.len + 2] == l.raw;
  }

  lemma PrefixedSingle(p: char, value: string)
    requires IsPrefix(p)
    ensures Single([p] + StringLiteral(value), Prefixed(p, value))
  {
    hide ScanQuoted, Escape, RunLength;
    var x := [p] + StringLiteral(value);
    StringLiteralDecodes(value, ['\'']);
    assert x[2..] == Escape(value) + ['\''];
    assert x[..|Escape(value)| + 3] == x;
  }

  lemma CommentSingle(s: string, d: Dialect, count: nat, l: Lexeme)
    requires Reads(s, d, count, l) && (AtLineComment(s) || AtBlockComment(s))
    ensures Single(l.raw, l.token)
  {
    hide IndexByte, IndexPair;
    var x := l.raw;
    assert x == s[..|x|];
    if AtLineComment(s) {
      LineCommentCut(s);
      assert AtLineComment(x) || |x| == 1;
      if |x| == 1 { LineCommentLong(s); }
      assert x[..|x|] == x;
    } else {
      assert x[2..] == s[2..][..|x| - 2];
      IndexPairCut(s[2..], '*', '/');
      assert x[..|x|] == x;
    }
  }

  lemma LineCommentLong(s: string)
    requires AtLineComment(s)
    ensures LineCommentLength(s) >= 2
  {
    var j := IndexByte(s, '\n');
    if j.Some? { assert s[j.value] == '\n'; }
  }

  lemma LineCommentCut(s: string)
    requires AtLineComment(s)
    ensures LineCommentLength(s[..LineCommentLength(s)]) == LineCommentLength(s)
  {
    if IndexByte(s, '\n').Some? { IndexByteCut(s, '\n'); } else { assert s[..|s|] == s; }
  }

  lemma {:induction false} IndexByteCut(s: string, c: char)
    requires IndexByte(s, c).Some?
    ensures IndexByte(s[..IndexByte(s, c).value + 1], c) == IndexByte(s, c)
    decreases |s|
  {
    var n := IndexByte(s, c).value + 1;
    if s[0] != c {
      assert s[..n][0] == s[0] && s[..n][1..] == s[1..][..n - 1];
      IndexByteCut(s[1..], c);
    }
  }

  lemma {:induction false} IndexPairCut(s: string, a: char, b: char)
    requires IndexPair(s, a, b).Some?
    ensures IndexPair(s[..IndexPair(s, a, b).value + 2], a, b) == IndexPair(s, a, b)
    decreases |s|
  {
    var n := IndexPair(s, a, b).value + 2;
    assert s[..n][0] == s[0] && s[..n][1] == s[1];
    if !(s[0] == a && s[1] == b) {
      assert s[..n][1..] == s[1..][..n - 1];
      IndexPairCut(s[1..], a, b);
    }
  }

  lemma IdentSingle(value: string)
    ensures Single(['`'] + Double(value, '`') + ['`'], Ident(value))
  {
    hide ScanQuoted, Double;
    var x := ['`'] + Double(value, '`') + ['`'];
    DoubledDecodes(value, '`', ['`']);
    assert x[1..] == Double(value, '`') + ['`'];
    assert x[..|Double(value, '`')| + 2] == x;
  }

  /** Everything but a placeholder is emitted as text that reads back as the
      token it was read from. */
  lemma RenderedSingle(s: string, d: Dialect, count: nat, l: Lexeme, args: seq<Arg>)
    requires Reads(s, d, count, l) && !l.token.Param?
    ensures Single(Rendered(l, d, args), l.token)
  {
    hide ScanQuoted, IndexByte, IndexPair, Double, Escape, WordLength, Single, DollarNumber;
    if IsQuote(s[0]) {
      if d == MySql {
        MySqlQuotedSingle(s, count, l);
      } else if l.token.Str? {
        StringSingle(l.token.value);
      } else {
        IdentSingle(l.token.value);
      }
    } else if AtLineComment(s) || AtBlockComment(s) {
      CommentSingle(s, d, count, l);
    } else if AtPrefixed(s) {
      if d == MySql { MySqlPrefixedSingle(s, count, l); } else { PrefixedSingle(l.token.prefix, l.token.value); }
    } else if WordChar(s[0], Query(d)) {
      WordAlone(s, Query(d));
      WordSingle(l.raw);
    } else {
      PunctSingle(s[0]);
    }
  }

  lemma PunctSingle(c: char)
    requires !IsQuote(c) && !WordChar(c, Bound)
    ensures Single([c], Punct(c))
  {
  }

  /** How the bytes emitted for one token meet the text after them. */
  lemma RenderedLexes(s: string, d: Dialect, count: nat, l: Lexeme, args: seq<Arg>, rest: string)
    requires Reads(s, d, count, l) && Ready(l, args)
    ensures var x, ts := Rendered(l, d, args), Image(l, args);
            && x != ""
            && (!Glues(ts[|ts| - 1], rest) ==> BoundTokens(x + rest) == Cons(ts, BoundTokens(rest)))
            && (Glues(ts[|ts| - 1], rest) ==> !StartsWith(BoundTokens(x + rest), ts))
  {
    hide BoundTokens, Next, SqlLiteral, LiteralTokens, Escape, Double;
    if l.token.Param? {
      LiteralLexes(args[l.token.number - 1], rest);
    } else {
      RenderedSingle(s, d, count, l, args);
      SingleLexes(Rendered(l, d, args), l.token, rest);
    }
  }

  // ------------------------------------------- binding emits the rendered tokens

  lemma LexUnfold(s: string, d: Dialect, count: nat)
    ensures s == "" ==> Lex(s, Query(d), count) == Some([])
    ensures s != "" && Next(s, Query(d), count).None? ==> Lex(s, Query(d), count) == None
    ensures s != "" && Next(s, Query(d), count).Some? ==>
              var l := Next(s, Query(d), count).value;
              var r := Lex(s[|l.raw|..], Query(d), CountAfter(count, l.token));
              && (r.None? ==> Lex(s, Query(d), count) == None)
              && (r.Some? ==> Lex(s, Query(d), count) == Some([l] + r.value))
  {
  }

  lemma {:induction false} BindRun(s: string, n: nat, d: Dialect, args: seq<Arg>, describe: bool, count: nat)
    requires n <= RunLength(s, Query(d))
    ensures Bind(s, d, args, describe, count) == Prepend(s[..n], Bind(s[n..], d, args, describe, count))
    decreases |s|
  {
    hide *;
    if n == 0 {
      assert s[0..] == s && s[..0] == "";
      PrependNothing(Bind(s, d, args, describe, count));
    } else {
      RunUnfold(s, Query(d));
      WordStep(s, d, args, describe, count);
      BindUnfold(s, d, args, describe, count);
      BindRun(s[1..], n - 1, d, args, describe, count);
      SplitRun(s, n);
      PrependTwice([s[0]], s[1..][..n - 1], Bind(s[n..], d, args, describe, count));
    }
  }

  lemma WordStep(s: string, d: Dialect, args: seq<Arg>, describe: bool, count: nat)
    requires s != "" && RunLength(s, Query(d)) > 0
    ensures BindStep(s, d, args, describe, count) == Ok(Piece([s[0]], 1, count))
  {
    hide RunLength, QuotedPiece, CommentPiece, ParamPiece;
    RunUnfold(s, Query(d));
  }

  lemma SignStep(s: string, d: Dialect, args: seq<Arg>, describe: bool, count: nat)
    requires |s| > 1 && IsSign(s[0]) && IsDigit(s[1])
    ensures Bind(s, d, args, describe, count) == Prepend([s[0]], Bind(s[1..], d, args, describe, count))
  {
    hide Bind, QuotedPiece, CommentPiece, ParamPiece;
    BindUnfold(s, d, args, describe, count);
  }

  /** The binder copies a run and the exponent after it. */
  lemma SignedRunBinds(s: string, d: Dialect, args: seq<Arg>, describe: bool, count: nat)
    ensures var n := SignedRun(s, Query(d));
            Bind(s, d, args, describe, count) == Prepend(s[..n], Bind(s[n..], d, args, describe, count))
  {
    hide Bind, Prepend, RunLength, EndsInExponent;
    var m, n := RunLength(s, Query(d)), SignedRun(s, Query(d));
    BindRun(s, m, d, args, describe, count);
    if m < n {
      var r := Bind(s[n..], d, args, describe, count);
      SignStep(s[m..], d, args, describe, count);
      BindRun(s[m + 1..], n - m - 1, d, args, describe, count);
      DropDrop(s, m, 1);
      DropDrop(s, m + 1, n - m - 1);
      PrependTwice([s[m]], s[m + 1..][..n - m - 1], r);
      PrependTwice(s[..m], [s[m]] + s[m + 1..][..n - m - 1], r);
      assert s[..m] + ([s[m]] + s[m + 1..][..n - m - 1]) == s[..n];
    }
  }

  lemma SplitRun(s: string, n: nat)
    requires 1 <= n <= |s|
    ensures s[1..][n - 1..] == s[n..] && [s[0]] + s[1..][..n - 1] == s[..n]
  {
  }

  /** The arguments a placeholder needs for its literal to exist. */
  predicate HasArg(l: Lexeme, args: seq<Arg>) {
    l.token.Param? ==> 1 <= l.token.number <= |args| && Supported(args[l.token.number - 1])
  }

  lemma BindQuotedLexeme(s: string, d: Dialect, args: seq<Arg>, describe: bool, count: nat, l: Lexeme)
    requires Reads(s, d, count, l) && IsQuote(s[0]) && !Misread(l, d) && Ready(l, args)
    ensures BindStep(s, d, args, describe, count) == Ok(Piece(Rendered(l, d, args), |l.raw|, count))
  {
    hide ScanQuoted, Double, Escape, EvenBackslashes;
    if s[0] == '`' {
      EscapesAgree(s[1..], '`');
      assert l.raw[1..] == s[1..][..|l.raw| - 1];
    }
  }

  lemma PrefixedPieces(s: string, d: Dialect, args: seq<Arg>, describe: bool, count: nat, l: Lexeme)
    requires Reads(s, d, count, l) && l.token.Prefixed?
    ensures |s| > 1 && 2 <= |l.raw| <= |s|
    ensures BindStep(s, d, args, describe, count) == Ok(Piece([s[0]], 1, count))
    ensures BindStep(s[1..], d, args, describe, count).Ok?
    ensures var p := BindStep(s[1..], d, args, describe, count).value;
            p.len == |l.raw| - 1 && p.count == count && [s[0]] + p.text == Rendered(l, d, args)
  {
    hide ScanQuoted, Escape, WordLength, RunLength;
    assert AtPrefixed(s);
    var t := s[1..];
    assert t[1..] == s[2..] && t[0] == '\'';
    RunUnfold(s, Query(d));
    WordStep(s, d, args, describe, count);
    var n := ScanQuoted(s[2..], '\'', d == MySql).value.len;
    assert [s[0]] + t[..n + 1] == s[..n + 2];
  }

  /** The binder copies the prefix as a byte and then meets a quoted token. */
  lemma BindPrefixedLexeme(s: string, d: Dialect, args: seq<Arg>, describe: bool, count: nat, l: Lexeme)
    requires Reads(s, d, count, l) && l.token.Prefixed?
    ensures Bind(s, d, args, describe, count)
         == Prepend(Rendered(l, d, args), Bind(s[|l.raw|..], d, args, describe, count))
  {
    hide Bind, BindStep, Next, Rendered, Prepend;
    PrefixedPieces(s, d, args, describe, count, l);
    var p := BindStep(s[1..], d, args, describe, count).value;
    BindUnfold(s, d, args, describe, count);
    BindUnfold(s[1..], d, args, describe, count);
    DropDrop(s, 1, p.len);
    PrependTwice([s[0]], p.text, Bind(s[|l.raw|..], d, args, describe, count));
  }

  lemma BindParamLexeme(s: string, d: Dialect, args: seq<Arg>, count: nat, l: Lexeme)
    requires Reads(s, d, count, l) && l.token.Param?
    ensures var p := BindStep(s, d, args, false, count);
            && (p.Ok? <==> HasArg(l, args))
            && (p.Ok? ==> p.value == Piece(SqlLiteral(args[l.token.number - 1]).value, |l.raw|, CountAfter(count, l.token)))
  {
    hide DigitsLength, ParseInt, IntText, Escape;
    assert !IsQuote(s[0]) && !AtLineComment(s) && !AtBlockComment(s) && AtParam(s[0], d);
  }

  lemma Kinds(s: string, d: Dialect, count: nat, l: Lexeme)
    requires Reads(s, d, count, l)
    ensures !IsQuote(s[0]) && !l.token.Prefixed? && !l.token.Word? ==> l.token.Param? || l.token.Comment? || l.token.Punct?
    ensures l.token.Word? && !IsQuote(s[0]) ==> l.raw == s[..WordLength(s, Query(d))] && l.token.text == l.raw
  {
    hide ScanQuoted, WordLength, DollarNumber, IndexByte, IndexPair;
  }

  /** A word that is not misread is what the binder copies. */
  lemma WordIsRun(s: string, d: Dialect)
    ensures d == MySql || '$' !in s[..WordLength(s, Query(d))] ==> WordLength(s, Query(d)) == SignedRun(s, Query(d))
  {
    hide SignedRun, RunLength, EndsInName;
    var n := SignedRun(s, Query(d));
    if WordLength(s, Query(d)) > n { assert s[..WordLength(s, Query(d))][n] == '$'; }
  }

  lemma WordBinds(s: string, d: Dialect, args: seq<Arg>, describe: bool, count: nat, l: Lexeme)
    requires Reads(s, d, count, l) && l.token.Word? && !IsQuote(s[0]) && !Misread(l, d)
    ensures Bind(s, d, args, describe, count) == Prepend(l.raw, Bind(s[|l.raw|..], d, args, describe, count))
  {
    hide Bind, ScanQuoted, SignedRun, EndsInName, RunLength, DollarNumber, IndexByte, IndexPair;
    WordIsRun(s, d);
    SignedRunBinds(s, d, args, describe, count);
  }

  lemma QuoteToken(s: string, d: Dialect, count: nat, l: Lexeme)
    requires Reads(s, d, count, l) && IsQuote(s[0])
    ensures !l.token.Param? && !l.token.Word?
  {
    hide ScanQuoted;
  }

  lemma BindOther(s: string, d: Dialect, args: seq<Arg>, count: nat, l: Lexeme)
    requires Reads(s, d, count, l) && (l.token.Comment? || l.token.Punct?)
    ensures BindStep(s, d, args, false, count) == Ok(Piece(l.raw, |l.raw|, count))
  {
    hide ScanQuoted, WordLength, DollarNumber, IndexByte, IndexPair, QuotedPiece, ParamPiece;
    assert s[..1] == [s[0]];
  }

  lemma PlainImage(l: Lexeme, d: Dialect, args: seq<Arg>, count: nat)
    requires l.token.Word? || l.token.Comment? || l.token.Punct?
    ensures Ready(l, args) && Rendered(l, d, args) == l.raw && CountAfter(count, l.token) == count && HasArg(l, args)
  {
  }

  /** Binding consumes a query token by token, emitting each one's image. */
  lemma BindLexeme(s: string, d: Dialect, args: seq<Arg>, count: nat, l: Lexeme)
    requires Reads(s, d, count, l) && !Misread(l, d)
    ensures !HasArg(l, args) ==> Bind(s, d, args, false, count).Err?
    ensures Ready(l, args) ==>
              var rest := Bind(s[|l.raw|..], d, args, false, CountAfter(count, l.token));
              Bind(s, d, args, false, count) == Prepend(Rendered(l, d, args), rest)
  {
    hide Bind, BindStep, Prepend, Next, Misread, SqlLiteral, Escape, Double;
    BindUnfold(s, d, args, false, count);
    Kinds(s, d, count, l);
    if IsQuote(s[0]) {
      QuoteToken(s, d, count, l);
      BindQuotedLexeme(s, d, args, false, count, l);
    } else if l.token.Param? {
      BindParamLexeme(s, d, args, count, l);
    } else if l.token.Prefixed? {
      BindPrefixedLexeme(s, d, args, false, count, l);
    } else if l.token.Word? {
      PlainImage(l, d, args, count);
      WordBinds(s, d, args, false, count, l);
    } else {
      PlainImage(l, d, args, count);
      BindOther(s, d, args, count, l);
    }
  }

  /** A query that the lexer can read is bound to the concatenation of its
      tokens' images, and binding fails only for want of an argument. */
  lemma {:induction false} BindRenders(s: string, d: Dialect, args: seq<Arg>, count: nat)
    requires Lex(s, Query(d), count).Some? && Legible(Lex(s, Query(d), count).value, d)
    requires forall a :: a in args ==> Printable(a)
    ensures var ls := Lex(s, Query(d), count).value;
            var b := Bind(s, d, args, false, count);
            && (b.Ok? <==> AllReady(ls, args))
            && (b.Ok? ==> b == Ok(BoundSql(Render(ls, d, args), TotalCount(ls, count))))
    decreases |s|
  {
    hide Lex, Bind, Next, Rendered, Supported, Misread;
    LexUnfold(s, d, count);
    BindUnfold(s, d, args, false, count);
    if s != "" {
      var l := Next(s, Query(d), count).value;
      var rest := s[|l.raw|..];
      var c := CountAfter(count, l.token);
      var ls := Lex(rest, Query(d), c).value;
      assert ([l] + ls)[0] == l && ([l] + ls)[1..] == ls;
      LegibleSplit(l, ls, d);
      AllReadySplit(l, ls, args);
      BindLexeme(s, d, args, count, l);
      BindRenders(rest, d, args, c);
      if HasArg(l, args) {
        assert l.token.Param? ==> args[l.token.number - 1] in args;
      }
    }
  }

  lemma LegibleSplit(l: Lexeme, ls: seq<Lexeme>, d: Dialect)
    ensures Legible([l] + ls, d) <==> !Misread(l, d) && Legible(ls, d)
  {
    hide Misread;
    var all := [l] + ls;
    assert all[0] == l && forall k :: 0 <= k < |ls| ==> all[k + 1] == ls[k];
    assert forall k :: 1 <= k < |all| ==> all[k] == ls[k - 1];
  }

  lemma AllReadySplit(l: Lexeme, ls: seq<Lexeme>, args: seq<Arg>)
    ensures AllReady([l] + ls, args) <==> Ready(l, args) && AllReady(ls, args)
  {
    var all := [l] + ls;
    assert all[0] == l && forall k :: 0 <= k < |ls| ==> all[k + 1] == ls[k];
    assert forall k :: 1 <= k < |all| ==> all[k] == ls[k - 1];
  }

  lemma DescribeOther(s: string, d: Dialect, count: nat, l: Lexeme)
    requires Reads(s, d, count, l) && (l.token.Param? || l.token.Comment? || l.token.Punct?)
    ensures BindStep(s, d, [], true, count).Ok?
    ensures var p := BindStep(s, d, [], true, count).value; p.len == |l.raw| && p.count == CountAfter(count, l.token)
  {
    hide ScanQuoted, WordLength, DigitsLength, ParseInt, IndexByte, IndexPair, QuotedPiece;
  }

  /** In describe mode too, binding consumes a query token by token. */
  lemma DescribeLexeme(s: string, d: Dialect, count: nat, l: Lexeme)
    requires Reads(s, d, count, l) && !Misread(l, d)
    ensures var b, r := Bind(s, d, [], true, count), Bind(s[|l.raw|..], d, [], true, CountAfter(count, l.token));
            (b.Ok? <==> r.Ok?) && (b.Ok? ==> b.value.count == r.value.count)
  {
    hide Bind, BindStep, Next, Misread, Rendered;
    BindUnfold(s, d, [], true, count);
    Kinds(s, d, count, l);
    if IsQuote(s[0]) {
      QuoteToken(s, d, count, l);
      BindQuotedLexeme(s, d, [], true, count, l);
    } else if l.token.Prefixed? {
      BindPrefixedLexeme(s, d, [], true, count, l);
    } else if l.token.Word? {
      WordBinds(s, d, [], true, count, l);
    } else {
      DescribeOther(s, d, count, l);
    }
  }

  /** Describing a query counts its placeholders. */
  lemma {:induction false} DescribeCounts(s: string, d: Dialect, count: nat)
    requires Lex(s, Query(d), count).Some? && Legible(Lex(s, Query(d), count).value, d)
    ensures var b := Bind(s, d, [], true, count);
            b.Ok? && b.value.count == TotalCount(Lex(s, Query(d), count).value, count)
    decreases |s|
  {
    hide Lex, Bind, Next;
    LexUnfold(s, d, count);
    BindUnfold(s, d, [], true, count);
    if s != "" {
      var l := Next(s, Query(d), count).value;
      var c := CountAfter(count, l.token);
      var ls := Lex(s[|l.raw|..], Query(d), c).value;
      assert ([l] + ls)[0] == l && ([l] + ls)[1..] == ls;
      LegibleSplit(l, ls, d);
      DescribeLexeme(s, d, count, l);
      DescribeCounts(s[|l.raw|..], d, c);
    }
  }

  /** The tokens of a PostgreSQL query do not depend on the count so far. */
  lemma {:induction false} PgCountIgnored(s: string, a: nat, b: nat)
    ensures Lex(s, Query(Postgres), a) == Lex(s, Query(Postgres), b)
    decreases |s|
  {
    hide Lex, ScanQuoted, WordLength, IndexByte, IndexPair, DollarNumber;
    LexUnfold(s, Postgres, a);
    LexUnfold(s, Postgres, b);
    if s != "" && Next(s, Query(Postgres), a).Some? {
      var l := Next(s, Query(Postgres), a).value;
      PgCountIgnored(s[|l.raw|..], CountAfter(a, l.token), CountAfter(b, l.token));
    }
  }

  lemma {:induction false} RunDrop(s: string, m: nat, lang: Lang)
    requires m <= RunLength(s, lang)
    ensures RunLength(s[m..], lang) == RunLength(s, lang) - m
  {
    if m > 0 {
      RunDrop(s[1..], m - 1, lang);
      assert s[1..][m - 1..] == s[m..];
    } else {
      assert s[0..] == s;
    }
  }

  lemma {:induction false} DigitsInRun(s: string)
    ensures DigitsLength(s) <= RunLength(s, Bound)
  {
    if s != "" && IsDigit(s[0]) { DigitsInRun(s[1..]); }
  }

  lemma ParamInRun(s: string, args: seq<Arg>, describe: bool, count: nat)
    requires s != "" && s[0] == '$' && BindStep(s, Postgres, args, describe, count).Ok?
    ensures BindStep(s, Postgres, args, describe, count).value.len <= RunLength(s, Bound)
  {
    hide DigitsLength, ParseInt, SqlLiteral;
    DigitsInRun(s[1..]);
  }

  /** What binds still binds after a run of word bytes, whatever placeholders the
      binder saw in it. */
  lemma {:induction false} RunConsumed(s: string, args: seq<Arg>, describe: bool, count: nat) returns (after: nat)
    requires Bind(s, Postgres, args, describe, count).Ok?
    ensures Bind(s[RunLength(s, Bound)..], Postgres, args, describe, after).Ok?
    decreases |s|
  {
    hide Bind, BindStep, RunLength;
    RunUnfold(s, Bound);
    BindUnfold(s, Postgres, args, describe, count);
    if RunLength(s, Bound) == 0 {
      assert s[0..] == s;
      return count;
    }
    var n := RunLength(s, Bound);
    if s[0] == '$' {
      ParamInRun(s, args, describe, count);
    } else {
      RunUnfold(s, Query(Postgres));
      WordStep(s, Postgres, args, describe, count);
    }
    var p := BindStep(s, Postgres, args, describe, count).value;
    RunDrop(s, p.len, Bound);
    after := RunConsumed(s[p.len..], args, describe, p.count);
    DropDrop(s, p.len, n - p.len);
  }

  /** A PostgreSQL query that binds at all is one the lexer can read. */
  lemma {:induction false} PostgresBindLexes(s: string, args: seq<Arg>, describe: bool, count: nat)
    requires Bind(s, Postgres, args, describe, count).Ok?
    ensures Lex(s, Query(Postgres), count).Some?
    decreases |s|
  {
    hide Lex, Bind, Next;
    LexUnfold(s, Postgres, count);
    BindUnfold(s, Postgres, args, describe, count);
    if s != "" {
      PostgresStepReads(s, args, describe, count);
      var l := Next(s, Query(Postgres), count).value;
      var after := PostgresRest(s, args, describe, count, l);
      PostgresBindLexes(s[|l.raw|..], args, describe, after);
      PgCountIgnored(s[|l.raw|..], after, CountAfter(count, l.token));
    }
  }

  lemma PostgresStepReads(s: string, args: seq<Arg>, describe: bool, count: nat)
    requires s != "" && Bind(s, Postgres, args, describe, count).Ok?
    ensures Next(s, Query(Postgres), count).Some?
  {
    hide Bind, ScanQuoted, RunLength, WordLength, DigitsLength, ParseInt, IndexByte, IndexPair, Double, Escape;
    BindUnfold(s, Postgres, args, describe, count);
    if AtPrefixed(s) {
      RunUnfold(s, Query(Postgres));
      WordStep(s, Postgres, args, describe, count);
      BindUnfold(s[1..], Postgres, args, describe, count);
      assert s[1..][1..] == s[2..];
    }
  }

  lemma PostgresRest(s: string, args: seq<Arg>, describe: bool, count: nat, l: Lexeme) returns (after: nat)
    requires Reads(s, Postgres, count, l) && Bind(s, Postgres, args, describe, count).Ok?
    ensures Bind(s[|l.raw|..], Postgres, args, describe, after).Ok?
  {
    hide Bind, ScanQuoted, WordLength, DigitsLength, ParseInt, IndexByte, IndexPair, Double, Escape;
    after := CountAfter(count, l.token);
    BindUnfold(s, Postgres, args, describe, count);
    if l.token.Word? {
      after := WordConsumed(s, args, describe, count);
    } else if l.token.Prefixed? {
      BindPrefixedLexeme(s, Postgres, args, describe, count, l);
    }
  }

  lemma WordConsumed(s: string, args: seq<Arg>, describe: bool, count: nat) returns (after: nat)
    requires Bind(s, Postgres, args, describe, count).Ok?
    ensures Bind(s[WordLength(s, Query(Postgres))..], Postgres, args, describe, after).Ok?
  {
    hide Bind, SignedRun, RunLength, EndsInName;
    var n := SignedRun(s, Query(Postgres));
    SignedRunBinds(s, Postgres, args, describe, count);
    after := count;
    if WordLength(s, Query(Postgres)) > n {
      after := RunConsumed(s[n..], args, describe, count);
      RunUnfold(s[n..], Bound);
      DropDrop(s, n, 1);
      DropDrop(s, n, RunLength(s[n..], Bound));
    }
  }

  // ------------------------------------- names the binder takes for placeholders

  /** No literal starts with a `$`. */
  lemma LiteralStart(a: Arg)
    requires Supported(a) && Printable(a)
    ensures SqlLiteral(a).value != "" && SqlLiteral(a).value[0] != '*' && SqlLiteral(a).value[0] != '$'
  {
    hide Escape, NatText;
    match a
    case IntArg(n) => DigitsPlain(if n < 0 then -n else n, n < 0);
    case _ =>
  }

  lemma OnlySupported(a: Arg)
    requires SqlLiteral(a).Ok?
    ensures Supported(a)
  {
  }

  lemma ParamStart(s: string, args: seq<Arg>, count: nat)
    requires s != "" && s[0] == '$' && Bind(s, Postgres, args, false, count).Ok?
    requires forall a :: a in args ==> Printable(a)
    ensures var t := Bind(s, Postgres, args, false, count).value.text; t != "" && t[0] != '$'
  {
    hide Bind, DigitsLength, ParseInt, SqlLiteral, Supported, Printable;
    BindUnfold(s, Postgres, args, false, count);
    var a := args[ParamNumber(s, Postgres, count).value.0 - 1];
    assert a in args;
    OnlySupported(a);
    LiteralStart(a);
  }

  /** Where the name has its `$`, the output has the start of a literal, so the
      name is never the first token of what it becomes. */
  lemma NameBroken(s: string, args: seq<Arg>, count: nat, l: Lexeme)
    requires Reads(s, Postgres, count, l) && Misread(l, Postgres)
    requires Bind(s, Postgres, args, false, count).Ok? && forall a :: a in args ==> Printable(a)
    ensures !StartsWith(BoundTokens(Bind(s, Postgres, args, false, count).value.text), [l.token])
  {
    hide Bind, ScanQuoted, SignedRun, EndsInName, RunLength, Printable, BoundTokens;
    var t, n := Bind(s, Postgres, args, false, count).value.text, SignedRun(s, Query(Postgres));
    Kinds(s, Postgres, count, l);
    SignedRunBinds(s, Postgres, args, false, count);
    DollarAfterRun(s);
    ParamStart(s[n..], args, count);
    assert t[n] == Bind(s[n..], Postgres, args, false, count).value.text[0];
    assert l.token.text[n] == '$';
    if StartsWith(BoundTokens(t), [l.token]) { TextStarts(t, l.token); }
  }

  lemma DollarAfterRun(s: string)
    requires '$' in s[..WordLength(s, Query(Postgres))]
    ensures var n := SignedRun(s, Query(Postgres)); n < WordLength(s, Query(Postgres)) && s[n] == '$'
  {
    hide RunLength, EndsInExponent, EndsInName;
    var m, n := RunLength(s, Query(Postgres)), SignedRun(s, Query(Postgres));
    var k :| 0 <= k < WordLength(s, Query(Postgres)) && s[k] == '$';
    if k < n && k > m { assert s[m + 1..][k - m - 1] == '$'; }
  }

  /** The bytes of a word or comment start any text it is the first token of. */
  lemma TextStarts(t: string, u: Token)
    requires (u.Word? || u.Comment?) && StartsWith(BoundTokens(t), [u])
    ensures u.text <= t && forall k :: 0 <= k < |u.text| ==> t[k] == u.text[k]
  {
    hide BoundTokens, ScanQuoted, WordLength, IndexByte, IndexPair;
    TokensUnfold(t);
    var l := Next(t, Bound, 0);
    FirstOfCons(l.value.token, BoundTokens(t[|l.value.raw|..]), u);
  }

  /** The parameters of a query in the order they are read. */
  function ParamNumbers(ls: seq<Lexeme>): seq<nat> {
    if ls == [] then []
    else (if ls[0].token.Param? then [ls[0].token.number] else []) + ParamNumbers(ls[1..])
  }

  /** In PostgreSQL the count is the largest `$n`. */
  lemma {:induction false} CountIsLargest(ls: seq<Lexeme>, count: nat)
    ensures count <= TotalCount(ls, count)
    ensures forall n :: n in ParamNumbers(ls) ==> n <= TotalCount(ls, count)
    ensures TotalCount(ls, count) == count || TotalCount(ls, count) in ParamNumbers(ls)
  {
    if ls != [] {
      var c := CountAfter(count, ls[0].token);
      var head := if ls[0].token.Param? then [ls[0].token.number] else [];
      var tail := ParamNumbers(ls[1..]);
      CountIsLargest(ls[1..], c);
      assert forall n :: n in head + tail <==> n in head || n in tail;
      forall n | n in head + tail ensures n <= TotalCount(ls, count) {
        assert n in head ==> n <= c;
      }
    }
  }

  /** In MySQL the count is the number of `?`, numbered in order. */
  lemma {:induction false} MySqlCountsQuestionMarks(s: string, count: nat)
    requires Lex(s, Query(MySql), count).Some?
    ensures var ls := Lex(s, Query(MySql), count).value;
            var ns := ParamNumbers(ls);
            TotalCount(ls, count) == count + |ns| && forall k :: 0 <= k < |ns| ==> ns[k] == count + k + 1
    decreases |s|
  {
    hide Lex, ScanQuoted, RunLength, IndexByte, IndexPair;
    LexUnfold(s, MySql, count);
    if s != "" {
      var l := Next(s, Query(MySql), count).value;
      var c := CountAfter(count, l.token);
      var ls := Lex(s[|l.raw|..], Query(MySql), c).value;
      assert ([l] + ls)[0] == l && ([l] + ls)[1..] == ls;
      MySqlCountsQuestionMarks(s[|l.raw|..], c);
    }
  }

  // ------------------------------------------------------------- the main result

  /** Lexing the emitted tokens gives their images exactly when they stand
      apart. */
  lemma {:induction false} RenderLexes(s: string, d: Dialect, args: seq<Arg>, count: nat)
    requires Lex(s, Query(d), count).Some?
    requires AllReady(Lex(s, Query(d), count).value, args)
    ensures var ls := Lex(s, Query(d), count).value;
            BoundTokens(Render(ls, d, args)) == Some(Expand(ls, args)) <==> Delimited(ls, d, args)
    decreases |s|
  {
    hide Lex, Next, Rendered, Image, BoundTokens, Ready, Glues, Delimited;
    LexUnfold(s, d, count);
    TokensUnfold("");
    if s != "" {
      var l := Next(s, Query(d), count).value;
      var rest := s[|l.raw|..];
      var c := CountAfter(count, l.token);
      var ls := Lex(rest, Query(d), c).value;
      assert ([l] + ls)[0] == l && ([l] + ls)[1..] == ls;
      AllReadySplit(l, ls, args);
      RenderLexes(rest, d, args, c);
      RenderedLexes(s, d, count, l, args, Render(ls, d, args));
      DelimitedSplit(l, ls, d, args);
      ConsStarts(Image(l, args), BoundTokens(Render(ls, d, args)), Expand(ls, args));
    } else {
      DelimitedNone(d, args);
    }
  }

  lemma ConsStarts(ts: seq<Token>, r: Option<seq<Token>>, us: seq<Token>)
    ensures StartsWith(Some(ts + us), ts)
    ensures Cons(ts, r) == Some(ts + us) <==> r == Some(us)
  {
    if r.Some? && ts + r.value == ts + us {
      assert (ts + r.value)[|ts|..] == r.value && (ts + us)[|ts|..] == us;
    }
  }

  lemma DelimitedNone(d: Dialect, args: seq<Arg>)
    ensures Delimited([], d, args)
  {
  }

  lemma DelimitedSplit(l: Lexeme, ls: seq<Lexeme>, d: Dialect, args: seq<Arg>)
    requires Ready(l, args) && AllReady(ls, args)
    ensures AllReady([l] + ls, args)
    ensures Delimited([l] + ls, d, args) <==> Clear(l, Render(ls, d, args), args) && Delimited(ls, d, args)
  {
    hide Clear, Ready;
    AllReadySplit(l, ls, args);
    assert ([l] + ls)[0] == l && ([l] + ls)[1..] == ls;
  }

  lemma PgReady(s: string, args: seq<Arg>, count: nat, l: Lexeme)
    requires Reads(s, Postgres, count, l) && Bind(s, Postgres, args, false, count).Ok? && !Misread(l, Postgres)
    requires forall a :: a in args ==> Printable(a)
    ensures Ready(l, args)
  {
    hide Bind, Supported, Printable, Rendered;
    BindLexeme(s, Postgres, args, count, l);
    if l.token.Param? { assert args[l.token.number - 1] in args; }
  }

  /** What binds has all its arguments, misread names or not. */
  lemma {:induction false} PostgresReady(s: string, args: seq<Arg>, count: nat)
    requires Bind(s, Postgres, args, false, count).Ok? && forall a :: a in args ==> Printable(a)
    ensures Lex(s, Query(Postgres), count).Some? && AllReady(Lex(s, Query(Postgres), count).value, args)
    decreases |s|
  {
    hide Lex, Bind, Next, Printable, Ready;
    PostgresBindLexes(s, args, false, count);
    LexUnfold(s, Postgres, count);
    if s != "" {
      var l := Next(s, Query(Postgres), count).value;
      var after := PostgresRest(s, args, false, count, l);
      PostgresReady(s[|l.raw|..], args, after);
      PgCountIgnored(s[|l.raw|..], after, CountAfter(count, l.token));
      if !Misread(l, Postgres) { PgReady(s, args, count, l); } else { WordReady(l, args); }
      AllReadySplit(l, Lex(s[|l.raw|..], Query(Postgres), after).value, args);
    }
  }

  lemma WordReady(l: Lexeme, args: seq<Arg>)
    requires l.token.Word?
    ensures Ready(l, args) && Image(l, args) == [l.token]
  {
  }

  /** One misread name and the tokens are not preserved, whatever the rest is. */
  lemma {:induction false} MisreadBreaks(s: string, args: seq<Arg>, count: nat)
    requires Bind(s, Postgres, args, false, count).Ok? && forall a :: a in args ==> Printable(a)
    requires Lex(s, Query(Postgres), count).Some? && AllReady(Lex(s, Query(Postgres), count).value, args)
    requires !Legible(Lex(s, Query(Postgres), count).value, Postgres)
    ensures BoundTokens(Bind(s, Postgres, args, false, count).value.text)
            != Some(Expand(Lex(s, Query(Postgres), count).value, args))
    decreases |s|
  {
    hide Lex, Bind, Next, Printable, Ready, Misread, BoundTokens, Image, Rendered;
    LexUnfold(s, Postgres, count);
    if s == "" {
      return;
    }
    var l := Next(s, Query(Postgres), count).value;
    var rest, c := s[|l.raw|..], CountAfter(count, l.token);
    var ls := Lex(rest, Query(Postgres), c).value;
    assert ([l] + ls)[0] == l && ([l] + ls)[1..] == ls;
    AllReadySplit(l, ls, args);
    LegibleSplit(l, ls, Postgres);
    ConsStarts(Image(l, args), None, Expand(ls, args));
    if Misread(l, Postgres) {
      NameBroken(s, args, count, l);
      MisreadWord(l);
      WordReady(l, args);
    } else {
      BindLexeme(s, Postgres, args, count, l);
      var b := Bind(rest, Postgres, args, false, c).value.text;
      MisreadBreaks(rest, args, c);
      RenderedLexes(s, Postgres, count, l, args, b);
      ConsStarts(Image(l, args), BoundTokens(b), Expand(ls, args));
    }
  }

  lemma MisreadWord(l: Lexeme)
    requires Misread(l, Postgres)
    ensures l.token.Word?
  {
  }

  /** Token preservation. If binding succeeds, lexing its output as MySQL gives
      exactly the tokens of the query with each placeholder replaced by its
      argument's literal (comments and unquoted text byte for byte, every quoted
      token with its decoded value), if and only if no placeholder's literal
      touches a neighbour that would absorb it and, in PostgreSQL, no name has a
      `$` in it. */
  lemma BindingPreservesTokens(q: string, d: Dialect, args: seq<Arg>)
    requires BindSql(q, d, args, false).Ok?
    requires d == MySql ==> Lex(q, Query(d), 0).Some? && Legible(Lex(q, Query(d), 0).value, d)
    requires forall a :: a in args ==> Printable(a)
    ensures Lex(q, Query(d), 0).Some?
    ensures var ls := Lex(q, Query(d), 0).value;
            && AllReady(ls, args)
            && (BoundTokens(BindSql(q, d, args, false).value.text) == Some(Expand(ls, args))
                <==> Legible(ls, d) && Delimited(ls, d, args))
  {
    hide *;
    BindSqlText(q, d, args);
    if d == Postgres { PostgresReady(q, args, 0); }
    if Legible(Lex(q, Query(d), 0).value, d) {
      BindRenders(q, d, args, 0);
      RenderLexes(q, d, args, 0);
    } else {
      MisreadBreaks(q, args, 0);
    }
  }

  lemma BindSqlText(q: string, d: Dialect, args: seq<Arg>)
    requires BindSql(q, d, args, false).Ok?
    ensures Bind(q, d, args, false, 0) == BindSql(q, d, args, false)
  {
  }

  // --------------------------------------------------------- when the condition holds

  /** A placeholder with plain punctuation on both sides (blanks, commas,
      parentheses, comparison signs, but not `-`) stands clear, whatever its
      argument is, if the punctuation before it is not the sign of an exponent. */
  predicate Spaced(ls: seq<Lexeme>) {
    |ls| < 2 ||
    (&& SpacedPair(ls[0].token, ls[1].token)
     && (|ls| > 2 && ls[2].token.Param? ==> !SplitNumber(ls[0].token, ls[1].token))
     && Spaced(ls[1..]))
  }

  predicate SpacedPair(a: Token, b: Token) {
    && (b.Param? ==> a.Punct? && a.c != '-')
    && (a.Param? ==> b.Punct?)
  }

  /** A number with its exponent mark, and a plus sign. */
  predicate SplitNumber(a: Token, b: Token) {
    a.Word? && EndsInExponent(a.text) && b == Punct('+')
  }

  lemma QuoteEnds(s: string, quote: char, escapes: bool)
    requires ScanQuoted(s, quote, escapes).Some?
    ensures var n := ScanQuoted(s, quote, escapes).value.len; n < |s| ==> s[n] != quote
    decreases |s|
  {
    hide ScanQuoted;
    ScanUnfold(s, quote, escapes);
    var e := QuotedStep(s, quote, escapes);
    if e.Some? { QuoteEnds(s[e.value.len..], quote, escapes); }
  }

  lemma RenderedFirst(s: string, d: Dialect, count: nat, l: Lexeme, args: seq<Arg>)
    requires Reads(s, d, count, l) && !l.token.Param?
    ensures Rendered(l, d, args) != ""
    ensures Rendered(l, d, args)[0] == if d == Postgres && s[0] == '"' then '`' else s[0]
  {
    hide ScanQuoted, RunLength, IndexByte, IndexPair, Double, Escape;
  }

  lemma QuoteApart(s: string, d: Dialect, count: nat, l: Lexeme)
    requires Reads(s, d, count, l) && IsQuote(s[0]) && |l.raw| < |s|
    requires d == Postgres ==> s[|l.raw|] != '`'
    ensures var c := s[|l.raw|]; !GluesChar(l.token, if d == Postgres && c == '"' then '`' else c)
  {
    hide ScanQuoted;
    QuoteEnds(s[1..], s[0], Escapes(s[0], Query(d)));
    assert s[1..][|l.raw| - 1] == s[|l.raw|];
  }

  lemma CommentApart(s: string, d: Dialect, count: nat, l: Lexeme, c: char)
    requires Reads(s, d, count, l) && (AtLineComment(s) || AtBlockComment(s)) && |l.raw| < |s|
    ensures !GluesChar(l.token, c)
  {
    hide IndexByte, IndexPair, HasPrefix, HasSuffix, ScanQuoted, RunLength, DollarNumber;
    if AtLineComment(s) {
      assert l.raw[|l.raw| - 1] == '\n';
      EndsLine(l.raw);
    } else {
      assert l.raw[0] == '/';
      StartsBlock(l.raw);
    }
  }

  lemma EndsLine(x: string)
    requires x != "" && x[|x| - 1] == '\n'
    ensures HasSuffix(x, "\n")
  {
    assert x[|x| - 1..] == "\n";
  }

  lemma StartsBlock(x: string)
    requires x != "" && x[0] == '/'
    ensures !HasPrefix(x, "--")
  {
    if |x| >= 2 { assert x[..2][0] == '/' && "--"[0] == '-'; }
  }

  /** The byte after a token of the query never extends it in the query, and
      the byte emitted there never extends it in the output. */
  lemma NextByteApart(s: string, d: Dialect, count: nat, l: Lexeme)
    requires Reads(s, d, count, l) && !l.token.Param? && |l.raw| < |s|
    requires d == Postgres ==> s[|l.raw|] != '$' && s[|l.raw|] != '`'
    ensures var c := s[|l.raw|]; !GluesChar(l.token, if d == Postgres && c == '"' then '`' else c)
  {
    hide ScanQuoted, RunLength, BlockCommentLength, LineCommentLength, DollarNumber;
    var c := s[|l.raw|];
    if IsQuote(s[0]) {
      QuoteApart(s, d, count, l);
    } else if AtLineComment(s) || AtBlockComment(s) {
      CommentApart(s, d, count, l, if d == Postgres && c == '"' then '`' else c);
    } else if WordChar(s[0], Query(d)) && !AtPrefixed(s) {
      WordEnds(s, Query(d));
      assert |l.raw| == 1 ==> s[1] == c;
    } else if AtPrefixed(s) {
      QuoteEnds(s[2..], '\'', Escapes('\'', Query(d)));
      assert s[2..][|l.raw| - 2] == c;
    } else {
      assert |l.raw| == 1 && s[1] == c;
    }
  }

  /** No byte of the query is glued to the token before it, unless one of the two
      was a placeholder. */
  lemma SourceApart(s: string, d: Dialect, count: nat, l: Lexeme, l2: Lexeme, args: seq<Arg>)
    requires Reads(s, d, count, l) && Reads(s[|l.raw|..], d, CountAfter(count, l.token), l2)
    requires !l.token.Param? && !l2.token.Param?
    ensures Rendered(l2, d, args) != "" && !GluesChar(l.token, Rendered(l2, d, args)[0])
  {
    hide ScanQuoted, WordLength, IndexByte, IndexPair, Double, Escape, Rendered, DollarNumber, GluesChar;
    assert s[|l.raw|..][0] == s[|l.raw|];
    NextByteApart(s, d, count, l);
    RenderedFirst(s[|l.raw|..], d, CountAfter(count, l.token), l2, args);
  }

  lemma ParamApart(s: string, d: Dialect, count: nat, l: Lexeme, l2: Lexeme, args: seq<Arg>)
    requires Reads(s, d, count, l) && Reads(s[|l.raw|..], d, CountAfter(count, l.token), l2)
    requires Ready(l, args) && Ready(l2, args)
    requires l.token.Param? || l2.token.Param?
    requires SpacedPair(l.token, l2.token)
    ensures var ts := Image(l, args);
            Rendered(l2, d, args) != "" && !GluesChar(ts[|ts| - 1], Rendered(l2, d, args)[0])
  {
    hide ScanQuoted, WordLength, IndexByte, IndexPair, Double, Escape, DollarNumber, LiteralTokens, SqlLiteral, Lexes;
    if l.token.Param? {
      LiteralLexes(args[l.token.number - 1], "");
      var p := s[|l.raw|..][0];
      assert l2.token == Punct(p) && !IsQuote(p) && !WordChar(p, Query(d));
      assert Rendered(l2, d, args)[0] == p;
    } else {
      LiteralStart(args[l2.token.number - 1]);
    }
  }

  lemma {:induction false} PlainEnd(s: string)
    requires s != "" && Plain(s)
    ensures var ts := PlainTokens(s);
            ts[|ts| - 1].Word? && ts[|ts| - 1].text != "" && ts[|ts| - 1].text[|ts[|ts| - 1].text| - 1] == s[|s| - 1]
    decreases |s|
  {
    hide WordLength, PlainTokens, Single, Plain, Glues;
    var n := if WordChar(s[0], Bound) then WordLength(s, Bound) else 1;
    PlainHead(s, n, if WordChar(s[0], Bound) then Word(s[..n]) else Punct(s[0]));
    if n < |s| { PlainEnd(s[n..]); } else { assert s[..n] == s; }
  }

  lemma NoExponent(w: string)
    requires w != "" && (Lower(w[|w| - 1]) != 'e' || IsLetter(w[0]))
    ensures !EndsInExponent(w)
  {
    if |w| > 1 { assert w[..|w| - 1][0] == w[0]; }
  }

  /** No literal ends in an exponent mark. */
  lemma LiteralEnd(a: Arg, rest: string)
    requires Supported(a) && Printable(a)
    ensures var ts := LiteralTokens(a); !GluesSign(ts[|ts| - 1], rest)
  {
    hide PlainTokens, NatText, EndsInExponent;
    match a
    case NullArg => NoExponent("null");
    case BoolArg(b) => NoExponent(if b then "true" else "false");
    case IntArg(n) =>
      var d := NatText(if n < 0 then -n else n);
      NoExponent(d);
    case FloatArg(text) =>
      PlainEnd(text);
      var ts := PlainTokens(text);
      NoExponent(ts[|ts| - 1].text);
    case _ =>
  }

  /** A token emitted with a sign at its start is that sign or a comment. */
  lemma SignToken(s: string, d: Dialect, count: nat, l: Lexeme, args: seq<Arg>)
    requires Reads(s, d, count, l) && !l.token.Param?
    ensures var x := Rendered(l, d, args);
            x != "" && (IsSign(x[0]) ==> s[0] == x[0] && if |x| > 1 then x[1] == '-' else l == Lexeme(Punct(x[0]), x))
  {
    hide ScanQuoted, WordLength, IndexByte, IndexPair, Double, Escape, DollarNumber, Rendered;
    RenderedFirst(s, d, count, l, args);
    if IsSign(s[0]) {
      PlainImage(l, d, args, count);
      if AtLineComment(s) { LineCommentLong(s); }
    }
  }

  /** Where a sign and a digit are emitted next to each other, with no placeholder
      before or after the sign, they stand in the query. */
  lemma SignInSource(s: string, d: Dialect, count: nat, ls: seq<Lexeme>, args: seq<Arg>)
    requires Lex(s, Query(d), count) == Some(ls) && AllReady(ls, args)
    requires ls != [] && !ls[0].token.Param? && (|ls| > 1 && ls[1].token.Param? ==> !IsSignToken(ls[0].token))
    requires var x := Render(ls, d, args); |x| > 1 && IsSign(x[0]) && IsDigit(x[1])
    ensures |s| > 1 && IsSign(s[0]) && IsDigit(s[1])
  {
    hide Lex, Next, Rendered, Ready;
    LexUnfold(s, d, count);
    SignToken(s, d, count, ls[0], args);
    var x, more := Rendered(ls[0], d, args), Render(ls[1..], d, args);
    TwoBytes(x, more);
    LexUnfold(s[1..], d, count);
    RenderedFirst(s[1..], d, count, ls[1], args);
    assert (Rendered(ls[1], d, args) + Render(ls[2..], d, args))[0] == Rendered(ls[1], d, args)[0];
  }

  lemma TwoBytes(x: string, y: string)
    requires x != "" && |x + y| > 1
    ensures (x + y)[0] == x[0] && (x + y)[1] == if |x| > 1 then x[1] else y[0]
  {
  }

  predicate IsSignToken(t: Token) {
    t.Punct? && IsSign(t.c)
  }

  /** A sign and a digit of the query do not continue the number before them. */
  lemma ExponentApart(s: string, d: Dialect, count: nat, l: Lexeme, ls: seq<Lexeme>, args: seq<Arg>)
    requires Reads(s, d, count, l) && l.token.Word? && !IsQuote(s[0])
    requires Lex(s[|l.raw|..], Query(d), CountAfter(count, l.token)) == Some(ls)
    requires AllReady(ls, args) && Spaced([l] + ls)
    ensures !GluesSign(l.token, Render(ls, d, args))
  {
    hide Lex, Next, Rendered, Ready, EndsInExponent;
    if GluesSign(l.token, Render(ls, d, args)) {
      SpacedSplit(l, ls);
      SignInSource(s[|l.raw|..], d, count, ls, args);
      Kinds(s, d, count, l);
      WordEnds(s, Query(d));
    }
  }

  lemma {:induction false} SpacedDelimits(s: string, d: Dialect, args: seq<Arg>, count: nat)
    requires Lex(s, Query(d), count).Some?
    requires AllReady(Lex(s, Query(d), count).value, args)
    requires Spaced(Lex(s, Query(d), count).value)
    ensures Delimited(Lex(s, Query(d), count).value, d, args)
    decreases |s|
  {
    hide Lex, Next, Rendered, Image, Ready, Delimited, SpacedPair, GluesChar, GluesSign;
    LexUnfold(s, d, count);
    if s == "" {
      DelimitedNone(d, args);
    } else {
      var l := Next(s, Query(d), count).value;
      var rest, c := s[|l.raw|..], CountAfter(count, l.token);
      var ls := Lex(rest, Query(d), c).value;
      AllReadySplit(l, ls, args);
      DelimitedSplit(l, ls, d, args);
      SpacedSplit(l, ls);
      SpacedDelimits(rest, d, args, c);
      SpacedClear(s, d, count, l, ls, args);
    }
  }

  lemma SpacedClear(s: string, d: Dialect, count: nat, l: Lexeme, ls: seq<Lexeme>, args: seq<Arg>)
    requires Reads(s, d, count, l) && Lex(s[|l.raw|..], Query(d), CountAfter(count, l.token)) == Some(ls)
    requires Ready(l, args) && AllReady(ls, args) && Spaced([l] + ls)
    ensures Clear(l, Render(ls, d, args), args)
  {
    hide Lex, Next, Rendered, SpacedPair, GluesChar, GluesSign, LiteralTokens;
    LexUnfold(s[|l.raw|..], d, CountAfter(count, l.token));
    if ls != [] {
      SpacedSplit(l, ls);
      if l.token.Param? || ls[0].token.Param? {
        ParamApart(s, d, count, l, ls[0], args);
      } else {
        SourceApart(s, d, count, l, ls[0], args);
      }
      var x := Rendered(ls[0], d, args);
      assert (x + Render(ls[1..], d, args))[0] == x[0];
      SpacedSign(s, d, count, l, ls, args);
    }
  }

  lemma SpacedSign(s: string, d: Dialect, count: nat, l: Lexeme, ls: seq<Lexeme>, args: seq<Arg>)
    requires Reads(s, d, count, l) && Lex(s[|l.raw|..], Query(d), CountAfter(count, l.token)) == Some(ls)
    requires Ready(l, args) && AllReady(ls, args) && Spaced([l] + ls)
    ensures var ts := Image(l, args); !GluesSign(ts[|ts| - 1], Render(ls, d, args))
  {
    hide Lex, Next, Rendered, EndsInExponent, LiteralTokens, Spaced;
    if l.token.Param? {
      LiteralEnd(args[l.token.number - 1], Render(ls, d, args));
    } else if l.token.Word? {
      if IsQuote(s[0]) { QuoteToken(s, d, count, l); }
      ExponentApart(s, d, count, l, ls, args);
    }
  }

  lemma SpacedSplit(l: Lexeme, ls: seq<Lexeme>)
    requires Spaced([l] + ls)
    ensures Spaced(ls)
    ensures ls != [] ==> SpacedPair(l.token, ls[0].token)
    ensures |ls| > 1 && ls[1].token.Param? ==> !SplitNumber(l.token, ls[0].token)
  {
    hide SpacedPair, SplitNumber;
    var all := [l] + ls;
    assert all[1..] == ls && all[0] == l && forall k :: 0 <= k < |ls| ==> all[k + 1] == ls[k];
  }

  /** Token preservation without looking at the arguments: it is enough that
      every placeholder is written with plain punctuation around it. */
  lemma SpacedBindingPreservesTokens(q: string, d: Dialect, args: seq<Arg>)
    requires BindSql(q, d, args, false).Ok?
    requires Lex(q, Query(d), 0).Some? && Legible(Lex(q, Query(d), 0).value, d)
    requires forall a :: a in args ==> Printable(a)
    requires Spaced(Lex(q, Query(d), 0).value)
    ensures var ls := Lex(q, Query(d), 0).value;
            AllReady(ls, args) && BoundTokens(BindSql(q, d, args, false).value.text) == Some(Expand(ls, args))
  {
    hide *;
    BindingPreservesTokens(q, d, args);
    SpacedDelimits(q, d, args, 0);
  }

  /** The bound text of a one-byte token followed by a placeholder. */
  lemma BindAfterByte(c: char, a: Arg)
    requires c == '-' || IsDigit(c) || IsLetter(c)
    requires Supported(a)
    ensures BindSql([c, '?'], MySql, [a], false) == Ok(BoundSql([c] + SqlLiteral(a).value, 1))
  {
    hide Bind, SqlLiteral;
    var q := [c, '?'];
    assert q[1..] == "?" && "?"[1..] == "";
    BindUnfold(q, MySql, [a], false, 0);
    BindUnfold("?", MySql, [a], false, 0);
    BindUnfold("", MySql, [a], false, 1);
    var lit := Substitute(1, [a], false);
    assert lit.Ok? && lit == SqlLiteral(a) by { LiteralExists(a); }
    assert lit.value + "" == lit.value;
  }

  lemma LiteralExists(a: Arg)
    ensures Supported(a) ==> SqlLiteral(a).Ok?
  {
  }

  /** Without room around it, a literal does merge: `-?` bound to any negative
      number is a comment, and a digit before `?` joins the digits bound. */
  lemma GluedLiterals(n: int, c: char)
    requires n > 0 && IsDigit(c)
    ensures BindSql("-?", MySql, [IntArg(-n)], false) == Ok(BoundSql("--" + NatText(n), 1))
    ensures BoundTokens("--" + NatText(n)) == Some([Comment("--" + NatText(n))])
    ensures BindSql([c, '?'], MySql, [IntArg(n)], false) == Ok(BoundSql([c] + NatText(n), 1))
    ensures BoundTokens([c] + NatText(n)) == Some([Word([c] + NatText(n))])
  {
    hide BindSql, BoundTokens, NatText, RunLength, IndexByte;
    BindAfterByte('-', IntArg(-n));
    BindAfterByte(c, IntArg(n));
    assert ['-', '?'] == "-?" && ['-'] + ("-" + NatText(n)) == "--" + NatText(n);
    CommentAlone(NatText(n));
    WordSingle([c] + NatText(n));
    SingleLexes([c] + NatText(n), Word([c] + NatText(n)), "");
    assert ([c] + NatText(n)) + "" == [c] + NatText(n);
    TokensUnfold("");
    ConsEmpty([Word([c] + NatText(n))]);
  }

  /** After a number with its exponent mark, a literal merges with it over a sign,
      be it its own or one in between. */
  lemma GluedExponent(w: string, n: int)
    requires EndsInExponent(w) && n > 0
    ensures BindSql(w + "+?", MySql, [IntArg(n)], false) == Ok(BoundSql(w + "+" + NatText(n), 1))
    ensures BoundTokens(w + "+" + NatText(n)) == Some([Word(w + "+" + NatText(n))])
    ensures BindSql(w + "?", MySql, [IntArg(-n)], false) == Ok(BoundSql(w + "-" + NatText(n), 1))
    ensures BoundTokens(w + "-" + NatText(n)) == Some([Word(w + "-" + NatText(n))])
  {
    hide BindSql, BoundTokens, NatText, EndsInExponent, SqlLiteral;
    GluedPlus(w, n);
    GluedMinus(w, n);
    SignedNumberLexes(w, "+", NatText(n));
    SignedNumberLexes(w, "-", NatText(n));
  }

  lemma GluedPlus(w: string, n: int)
    requires EndsInExponent(w) && n > 0
    ensures BindSql(w + "+?", MySql, [IntArg(n)], false) == Ok(BoundSql(w + "+" + NatText(n), 1))
  {
    hide BindSql, NatText, EndsInExponent;
    ExponentBytes(w);
    BindAfterNumber(w + "+", IntArg(n));
    assert (w + "+") + "?" == w + "+?";
  }

  lemma GluedMinus(w: string, n: int)
    requires EndsInExponent(w) && n > 0
    ensures BindSql(w + "?", MySql, [IntArg(-n)], false) == Ok(BoundSql(w + "-" + NatText(n), 1))
  {
    hide BindSql, NatText, EndsInExponent;
    ExponentBytes(w);
    BindAfterNumber(w, IntArg(-n));
    assert w + ("-" + NatText(n)) == w + "-" + NatText(n);
  }

  lemma BindAfterNumber(x: string, a: Arg)
    requires Supported(a) && forall k :: 0 <= k < |x| ==> WordChar(x[k], Query(Postgres)) || x[k] == '+'
    ensures BindSql(x + "?", MySql, [a], false) == Ok(BoundSql(x + SqlLiteral(a).value, 1))
  {
    hide Bind, SqlLiteral;
    assert forall c :: c in x ==> Unspecial(c);
    BindPlain(x, "?", MySql, [a], false, 0);
    assert "?"[1..] == "";
    BindUnfold("?", MySql, [a], false, 0);
    BindUnfold("", MySql, [a], false, 1);
    LiteralExists(a);
    assert Substitute(1, [a], false) == SqlLiteral(a);
    assert SqlLiteral(a).value + "" == SqlLiteral(a).value;
  }

  lemma SignedNumberLexes(w: string, sign: string, digits: string)
    requires EndsInExponent(w) && |sign| == 1 && IsSign(sign[0]) && digits != "" && AllDigits(digits)
    ensures BoundTokens(w + sign + digits) == Some([Word(w + sign + digits)])
  {
    hide BoundTokens, SignedRun;
    var x := w + sign + digits;
    ExponentBytes(w);
    SignedNumberRun(w, sign, digits);
    WordSingle(x);
    SingleLexes(x, Word(x), "");
    assert x + "" == x;
    TokensUnfold("");
    ConsEmpty([Word(x)]);
  }

  lemma SignedNumberRun(w: string, sign: string, digits: string)
    requires EndsInExponent(w) && |sign| == 1 && IsSign(sign[0]) && digits != "" && AllDigits(digits)
    ensures var x := w + sign + digits;
            |x| > 1 && SignedRun(x, Bound) == |x| && WordChar(x[0], Bound) && x[1] != '\''
  {
    hide RunLength, EndsInExponent;
    ExponentBytes(w);
    RunAtLeast(w, |w|, Bound);
    RunAtLeast(digits, |digits|, Bound);
    var rest := sign + digits;
    var x := w + rest;
    assert w + sign + digits == x;
    RunAppend(w, rest);
    RunUnfold(rest, Bound);
    assert x[..|w|] == w && x[|w|] == rest[0] && x[|w| + 1] == rest[1] && x[|w| + 1..] == digits;
    assert x[0] == w[0] && x[1] == w[1];
  }

  /** A float printed with a signed exponent is one number. */
  lemma FloatIsOneNumber(w: string, sign: string, digits: string)
    requires EndsInExponent(w) && |sign| == 1 && IsSign(sign[0]) && digits != "" && AllDigits(digits)
    ensures var a := FloatArg(w + sign + digits);
            Printable(a) && LiteralTokens(a) == [Word(w + sign + digits)]
  {
    hide SignedRun, EndsInExponent;
    var x := w + sign + digits;
    ExponentBytes(w);
    SignedNumberRun(w, sign, digits);
    assert forall k :: 0 <= k < |x| ==> x[k] == if k < |w| then w[k] else if k == |w| then sign[0] else digits[k - |w| - 1];
    assert x[..|x|] == x;
  }

  /** A string bound after a prefix letter becomes a literal of another kind. */
  lemma PrefixGlued(p: char, s: string)
    requires IsPrefix(p)
    ensures BindSql([p, '?'], MySql, [StrArg(s)], false) == Ok(BoundSql([p] + StringLiteral(s), 1))
    ensures BoundTokens([p] + StringLiteral(s)) == Some([Prefixed(p, s)])
  {
    hide BindSql, BoundTokens, Escape, Next;
    BindAfterByte(p, StrArg(s));
    PrefixedSingle(p, s);
    SingleLexes([p] + StringLiteral(s), Prefixed(p, s), "");
    assert ([p] + StringLiteral(s)) + "" == [p] + StringLiteral(s);
    TokensUnfold("");
    ConsEmpty([Prefixed(p, s)]);
  }

  lemma ConsEmpty(ts: seq<Token>)
    ensures Cons(ts, Some([])) == Some(ts)
  {
    assert ts + [] == ts;
  }

  lemma CommentAlone(digits: string)
    requires AllDigits(digits)
    ensures BoundTokens("--" + digits) == Some([Comment("--" + digits)])
  {
    hide BoundTokens, IndexByte;
    var x := "--" + digits;
    assert forall k :: 0 <= k < |x| ==> x[k] == if k < 2 then '-' else digits[k - 2];
    assert x[..|x|] == x;
    TokensUnfold(x);
    assert x[|x|..] == "";
    TokensUnfold("");
    ConsEmpty([Comment(x)]);
  }

  /** A name with a `$` in it is one word to PostgreSQL; the binder puts the
      argument in the middle of it. */
  lemma DollarNameSplit(a: Arg)
    requires Supported(a)
    ensures Lex("a$1", Query(Postgres), 0) == Some([Lexeme(Word("a$1"), "a$1")])
    ensures BindSql("a$1", Postgres, [a], false) == Ok(BoundSql("a" + SqlLiteral(a).value, 1))
  {
    hide *;
    DollarNameLexes();
    DollarNameBinds(a);
  }

  lemma DollarNameLexes()
    ensures Lex("a$1", Query(Postgres), 0) == Some([Lexeme(Word("a$1"), "a$1")])
  {
    hide Lex, DollarNumber, EndsInName, ScanQuoted;
    var q := "a$1";
    assert q[1..] == "$1" && q[2..] == "1" && q[3..] == "" && "1"[1..] == "";
    OneName();
    assert RunLength(q, Query(Postgres)) == 1 && q[..1] == "a";
    assert RunLength("1", Bound) == 1;
    assert q[..3] == q;
    LexUnfold(q, Postgres, 0);
    LexUnfold("", Postgres, 0);
    assert Next(q, Query(Postgres), 0) == Some(Lexeme(Word(q), q));
    assert [Lexeme(Word(q), q)] + [] == [Lexeme(Word(q), q)];
  }

  lemma DollarNameBinds(a: Arg)
    requires Supported(a)
    ensures BindSql("a$1", Postgres, [a], false) == Ok(BoundSql("a" + SqlLiteral(a).value, 1))
  {
    hide Bind, SqlLiteral, DollarNumber, ScanQuoted, IndexByte, IndexPair;
    var q := "a$1";
    assert q[1..] == "$1" && "$1"[1..] == "1" && "$1"[2..] == "";
    OneDollar();
    LiteralExists(a);
    BindUnfold(q, Postgres, [a], false, 0);
    BindUnfold("$1", Postgres, [a], false, 0);
    BindUnfold("", Postgres, [a], false, 1);
    assert Substitute(1, [a], false) == SqlLiteral(a);
    var lit := SqlLiteral(a).value;
    assert lit + "" == lit;
    assert BindStep("$1", Postgres, [a], false, 0) == Ok(Piece(lit, 2, 1));
  }

  lemma OneName()
    ensures EndsInName("a")
  {
    assert "a"[..0] == "" && LastPart("a") == "" + ['a'] == "a";
  }

  lemma OneDollar()
    ensures DigitsLength("1") == 1 && DollarNumber("1") == Some((1, 1))
  {
    hide ParseInt;
    ParsePrintedInt(1, 64);
    assert NatText(1) == [Digit(1)] && Digit(1) == '1' && IntText(1) == NatText(1);
    assert "1"[1..] == "" && DigitsLength("") == 0 && DigitsLength("1") == 1;
    assert "1"[..1] == "1" && ParseInt("1", 64) == Some(1);
  }

  /** An identifier the binder misreads: after `\` in backticks MySQL reads a
      placeholder, but the binder takes the closing backtick for escaped and finds
      no end to the identifier. */
  lemma BackslashIdentifierRejected(args: seq<Arg>, describe: bool)
    ensures var q := ['`', '\\', '`', '?'];
            && Lex(q, Query(MySql), 0) == Some([Lexeme(Ident("\\"), ['`', '\\', '`']), Lexeme(Param(1), "?")])
            && BindSql(q, MySql, args, describe).Err?
  {
    hide *;
    BackslashLexes();
    BackslashRejected(args, describe);
  }

  lemma BackslashLexes()
    ensures Lex(['`', '\\', '`', '?'], Query(MySql), 0)
         == Some([Lexeme(Ident("\\"), ['`', '\\', '`']), Lexeme(Param(1), "?")])
  {
    hide Lex, Next;
    var q := ['`', '\\', '`', '?'];
    assert ['`', '\\', '`'] + "?" == q && q[3..] == "?" && "?"[1..] == "";
    BackslashIdent("?");
    MarkNext("?");
    LexUnfold(q, MySql, 0);
    LexUnfold("?", MySql, 0);
    LexUnfold("", MySql, 1);
    var ident, param := Lexeme(Ident("\\"), ['`', '\\', '`']), Lexeme(Param(1), "?");
    assert [ident] + ([param] + []) == [ident, param];
  }

  lemma BackslashRejected(args: seq<Arg>, describe: bool)
    ensures BindSql(['`', '\\', '`', '?'], MySql, args, describe).Err?
  {
    hide ScanQuoted, Bind;
    var q := ['`', '\\', '`', '?'];
    assert q[1..] == ['\\', '`', '?'] && q[1..][2..] == "?" && "?"[1..] == "";
    ScanUnfold(q[1..], '`', true);
    ScanUnfold("?", '`', true);
    ScanNothing(Quoted("", 0), "", '`', true);
    BindUnfold(q, MySql, args, describe, 0);
  }

  /** A query that binds although an identifier is misread: MySQL reads a
      placeholder after `\` in backticks, and a comment; the binder sees one quoted
      region up to the backtick in the comment, and no placeholder. */
  lemma MisreadMiscounts(describe: bool)
    ensures var q := ['`', '\\', '`', '?', '-', '-', ' ', '`'];
            && Lex(q, Query(MySql), 0) == Some([Lexeme(Ident("\\"), ['`', '\\', '`']), Lexeme(Param(1), "?"),
                                               Lexeme(Comment("-- `"), "-- `")])
            && BindSql(q, MySql, [], describe) == Ok(BoundSql(q, 0))
  {
    hide *;
    MiscountLexes();
    MiscountBinds(describe);
  }

  lemma MiscountLexes()
    ensures Lex(['`', '\\', '`', '?', '-', '-', ' ', '`'], Query(MySql), 0)
         == Some([Lexeme(Ident("\\"), ['`', '\\', '`']), Lexeme(Param(1), "?"), Lexeme(Comment("-- `"), "-- `")])
  {
    hide Lex, Next;
    var q := ['`', '\\', '`', '?', '-', '-', ' ', '`'];
    assert q[3..] == "?-- `" && "?-- `"[1..] == "-- `" && "-- `"[4..] == "";
    BackslashIdent("?-- `");
    assert ['`', '\\', '`'] + "?-- `" == q;
    MarkNext("?-- `");
    CommentWhole("-- `");
    LexUnfold(q, MySql, 0);
    LexUnfold("?-- `", MySql, 0);
    LexUnfold("-- `", MySql, 1);
    LexUnfold("", MySql, 1);
    var ident, param, note := Lexeme(Ident("\\"), ['`', '\\', '`']), Lexeme(Param(1), "?"), Lexeme(Comment("-- `"), "-- `");
    assert [ident] + ([param] + ([note] + [])) == [ident, param, note];
  }

  lemma MarkNext(s: string)
    requires s != "" && s[0] == '?'
    ensures Next(s, Query(MySql), 0) == Some(Lexeme(Param(1), "?"))
  {
    assert !IsQuote(s[0]) && !AtLineComment(s) && !AtBlockComment(s);
  }

  lemma BackslashIdent(rest: string)
    requires rest != "" && rest[0] != '`'
    ensures Next(['`', '\\', '`'] + rest, Query(MySql), 0) == Some(Lexeme(Ident("\\"), ['`', '\\', '`']))
  {
    hide ScanQuoted;
    var q := ['`', '\\', '`'] + rest;
    assert q[1..] == ['\\', '`'] + rest && q[1..][1..] == ['`'] + rest && q[..3] == ['`', '\\', '`'];
    ScanUnfold(q[1..], '`', false);
    ScanUnfold(['`'] + rest, '`', false);
    ResumeHead("\\", 1, 1);
  }

  lemma CommentWhole(x: string)
    requires AtLineComment(x) && '\n' !in x
    ensures Next(x, Query(MySql), 1) == Some(Lexeme(Comment(x), x))
  {
    hide IndexByte;
    assert x[..|x|] == x;
  }

  lemma MiscountBinds(describe: bool)
    ensures var q := ['`', '\\', '`', '?', '-', '-', ' ', '`'];
            BindSql(q, MySql, [], describe) == Ok(BoundSql(q, 0))
  {
    hide ScanQuoted, Bind;
    var q := ['`', '\\', '`', '?', '-', '-', ' ', '`'];
    MiscountScan();
    assert q[..8] == q && q[8..] == "" && q + "" == q;
    BindUnfold(q, MySql, [], describe, 0);
    BindUnfold("", MySql, [], describe, 0);
  }

  lemma MiscountScan()
    ensures var r := ScanQuoted(['\\', '`', '?', '-', '-', ' ', '`'], '`', true); r.Some? && r.value.len == 7
  {
    hide ScanQuoted, Unescape;
    var t := ['\\', '`', '?', '-', '-', ' ', '`'];
    assert t[2..] == "?-- `";
    MiscountTail();
    ScanUnfold(t, '`', true);
  }

  lemma MiscountTail()
    ensures var r := ScanQuoted("?-- `", '`', true); r.Some? && r.value.len == 5
  {
    hide ScanQuoted, Unescape;
    assert "?-- `"[1..] == "-- `" && "-- `"[1..] == "- `" && "- `"[1..] == " `" && " `"[1..] == "`";
    ScanUnfold("?-- `", '`', true);
    ScanUnfold("-- `", '`', true);
    ScanUnfold("- `", '`', true);
    ScanUnfold(" `", '`', true);
    ScanUnfold("`", '`', true);
  }
}
