/** `normalizeTypes`: in CREATE TABLE text, the type names `bool` and `boolean`
    become `tinyint(1)`; nothing else changes. */
module TypeAliases {
  import opened Prelude
  import opened Idents
  import opened Lexer

  /** Bytes of a quoted region after its opening quote: up to the closing quote,
      or all of `s` if there is none. */
  function QuotedLength(s: string, quote: char): (n: nat)
    ensures n <= |s|
    decreases |s|
  {
    if s == "" then 0
    else
      var n := QuotedStride(s, quote);
      if s[0] == quote && n == 1 then 1 else n + QuotedLength(s[n..], quote)
  }

  function QuotedStride(s: string, quote: char): (n: nat)
    requires s != ""
    ensures 1 <= n <= |s|
  {
    if s[0] == '\\' && |s| > 1 then 2
    else if s[0] == quote && |s| > 1 && s[1] == quote then 2 else 1
  }

  /** The length of the piece at the start of `s`: a quoted region, an
      identifier, or one byte. */
  function PieceLength(s: string): (n: nat)
    requires s != ""
    ensures 1 <= n <= |s|
  {
    if IsQuote(s[0]) then 1 + QuotedLength(s[1..], s[0])
    else if IdentStart(s[0]) then 1 + IdentLength(s[1..])
    else 1
  }

  function Pieces(s: string): (ps: seq<string>)
    ensures "" !in ps
    decreases |s|
  {
    if s == "" then [] else [s[..PieceLength(s)]] + Pieces(s[PieceLength(s)..])
  }

  predicate IsAlias(piece: string) {
    ToLower(piece) == "bool" || ToLower(piece) == "boolean"
  }

  function Rewrite(piece: string): string {
    if IsAlias(piece) then "tinyint(1)" else piece
  }

  function Concat(ps: seq<string>): string {
    if ps == [] then "" else ps[0] + Concat(ps[1..])
  }

  function RewriteAll(ps: seq<string>): (rs: seq<string>)
    ensures |rs| == |ps| && forall k :: 0 <= k < |ps| ==> rs[k] == Rewrite(ps[k])
  {
    if ps == [] then [] else [Rewrite(ps[0])] + RewriteAll(ps[1..])
  }

  predicate IsCreateTable(q: string) {
    HasPrefix(ToUpper(TrimSpace(q)), "CREATE TABLE")
  }

  function Normalize(s: string): string
    decreases |s|
  {
    if s == "" then "" else Rewrite(s[..PieceLength(s)]) + Normalize(s[PieceLength(s)..])
  }

  function NormalizeTypes(q: string): string {
    if IsCreateTable(q) then Normalize(q) else q
  }

  lemma NormalizeUnfold(s: string)
    ensures Normalize(s) == if s == "" then "" else Rewrite(s[..PieceLength(s)]) + Normalize(s[PieceLength(s)..])
  {
  }

  /** The scan splits the text into pieces without losing a byte, and rewrites
      each piece on its own: only an identifier that spells an alias changes. */
  lemma {:induction false} NormalizeRewritesPieces(s: string)
    ensures Concat(Pieces(s)) == s
    ensures Concat(RewriteAll(Pieces(s))) == Normalize(s)
    decreases |s|
  {
    hide PieceLength, Rewrite;
    if s != "" {
      var n := PieceLength(s);
      NormalizeRewritesPieces(s[n..]);
      var ps := Pieces(s[n..]);
      assert ([s[..n]] + ps)[1..] == ps;
      assert s == s[..n] + s[n..];
      assert RewriteAll(Pieces(s)) == [Rewrite(s[..n])] + RewriteAll(ps);
      assert RewriteAll(Pieces(s))[1..] == RewriteAll(ps);
    }
  }

  /** A quoted region, an identifier, or a byte that starts neither. */
  predicate PieceShape(p: string) {
    p != "" && (IsQuote(p[0]) || (IdentStart(p[0]) && IdentLength(p) == |p|) || (|p| == 1 && !IdentStart(p[0])))
  }

  lemma FirstPiece(s: string)
    requires s != ""
    ensures PieceShape(s[..PieceLength(s)])
    ensures IdentStart(s[0]) && PieceLength(s) < |s| ==> !IdentChar(s[PieceLength(s)])
  {
    hide QuotedLength;
    if !IsQuote(s[0]) && IdentStart(s[0]) {
      var n := PieceLength(s);
      IdentCut(s);
      IdentUnfold(s);
      assert s[1..][..n - 1] == s[..n][1..];
    }
  }

  /** The pieces are maximal: an identifier is never followed by a byte that
      would continue it, so a rewritten alias is a whole identifier. */
  lemma {:induction false} PiecesMaximal(s: string)
    ensures forall k :: 0 <= k < |Pieces(s)| ==> PieceShape(Pieces(s)[k])
    ensures forall k :: 0 <= k < |Pieces(s)| - 1 && IdentStart(Pieces(s)[k][0]) ==> !IdentChar(Pieces(s)[k + 1][0])
    decreases |s|
  {
    hide PieceLength, PieceShape;
    if s != "" {
      var n := PieceLength(s);
      FirstPiece(s);
      PiecesMaximal(s[n..]);
      var ps := Pieces(s[n..]);
      assert Pieces(s) == [s[..n]] + ps;
      if ps != [] { assert ps[0][0] == s[n..][0] == s[n]; }
      forall k | 0 <= k < |Pieces(s)| - 1 && IdentStart(Pieces(s)[k][0]) ensures !IdentChar(Pieces(s)[k + 1][0]) {
        if k > 0 { assert Pieces(s)[k] == ps[k - 1] && Pieces(s)[k + 1] == ps[k - 1 + 1]; }
      }
    }
  }

  /** Aliases are spelled with letters only, so a piece that changes is an
      identifier, never a quoted region. */
  lemma AliasIsIdentifier(piece: string)
    requires Rewrite(piece) != piece
    ensures piece != "" && forall k :: 0 <= k < |piece| ==> IsLetter(piece[k])
  {
    var low := ToLower(piece);
    forall k | 0 <= k < |piece| ensures IsLetter(piece[k]) {
      assert low[k] == Lower(piece[k]);
      assert 'a' <= low[k] <= 'z';
    }
  }

  method NormalizeLoop(q: string) returns (r: string)
    ensures r == NormalizeTypes(q)
  {
    hide Normalize, Rewrite, QuotedLength, IdentLength, PieceLength;
    if !HasPrefix(ToUpper(TrimSpace(q)), "CREATE TABLE") {
      return q;
    }
    var b, i := "", 0;
    assert q[0..] == q && "" + Normalize(q) == Normalize(q);
    while i < |q|
      invariant 0 <= i <= |q|
      invariant Normalize(q) == b + Normalize(q[i..])
      decreases |q| - i
    {
      var n := PieceEnd(q, i);
      NormalizeUnfold(q[i..]);
      assert q[i..][..n - i] == q[i..n] && q[i..][n - i..] == q[n..];
      var token := q[i..n];
      if IdentStart(q[i]) && (ToLower(token) == "bool" || ToLower(token) == "boolean") {
        RewriteAlias(token);
        token := "tinyint(1)";
      } else {
        RewriteOther(q[i..], token);
      }
      Assoc(b, token, Normalize(q[n..]));
      b, i := b + token, n;
    }
    NormalizeUnfold(q[i..]);
    assert q[i..] == "" && b + "" == b;
    return b;
  }

  lemma RewriteAlias(token: string)
    requires IsAlias(token)
    ensures Rewrite(token) == "tinyint(1)"
  {
  }

  lemma RewriteOther(s: string, token: string)
    requires s != "" && token != "" && token[0] == s[0]
    requires !IdentStart(s[0]) || !IsAlias(token)
    ensures Rewrite(token) == token
  {
    if IsAlias(token) { AliasIsIdentifier(token); }
  }

  method PieceEnd(q: string, i: nat) returns (j: nat)
    requires i < |q|
    ensures i < j <= |q| && j == i + PieceLength(q[i..])
  {
    hide QuotedLength, IdentLength;
    j := i + 1;
    assert q[i..][1..] == q[i + 1..];
    if q[i] == '\'' || q[i] == '"' || q[i] == '`' {
      var quote := q[i];
      while j < |q|
        invariant i < j <= |q|
        invariant QuotedLength(q[i + 1..], quote) == j - i - 1 + QuotedLength(q[j..], quote)
        decreases |q| - j
      {
        QuotedUnfold(q, j, quote);
        if q[j] == '\\' && j + 1 < |q| {
          j := j + 2;
          continue;
        }
        if q[j] == quote {
          j := j + 1;
          if j < |q| && q[j] == quote {
            j := j + 1;
            continue;
          }
          return;
        }
        j := j + 1;
      }
      assert q[j..] == "";
      QuotedNone(quote);
    } else if IdentStart(q[i]) {
      while j < |q| && IdentChar(q[j])
        invariant i < j <= |q|
        invariant IdentLength(q[i + 1..]) == j - i - 1 + IdentLength(q[j..])
        decreases |q| - j
      {
        IdentUnfold(q[j..]);
        assert q[j..][1..] == q[j + 1..];
        j := j + 1;
      }
      IdentUnfold(q[j..]);
    }
  }

  lemma QuotedNone(quote: char)
    ensures QuotedLength("", quote) == 0
  {
  }

  lemma QuotedUnfold(q: string, j: nat, quote: char)
    requires j < |q|
    ensures QuotedLength(q[j..], quote) ==
            if q[j] == '\\' && j + 1 < |q| then 2 + QuotedLength(q[j + 2..], quote)
            else if q[j] != quote then 1 + QuotedLength(q[j + 1..], quote)
            else if j + 1 < |q| && q[j + 1] == quote then 2 + QuotedLength(q[j + 2..], quote)
            else 1
  {
    assert q[j..][1..] == q[j + 1..];
    if j + 1 < |q| { assert q[j..][2..] == q[j + 2..]; }
  }

  // ------------------------------------------------------------- idempotence

  lemma StrideLocal(s: string, n: nat, quote: char, rest: string)
    requires s != "" && QuotedStride(s, quote) <= n <= |s|
    requires s[0] == quote && QuotedStride(s, quote) == 1 ==> n == 1 && (rest == "" || rest[0] != quote)
    requires s[0] == '\\' && |s| == 1 ==> rest == ""
    requires quote != '\\'
    ensures QuotedStride(s[..n] + rest, quote) == QuotedStride(s, quote)
  {
    var t := s[..n] + rest;
    assert t[0] == s[0] && (n > 1 ==> t[1] == s[1]) && (n == 1 && rest != "" ==> t[1] == rest[0]);
  }

  lemma QuotedLengthUnfold(s: string, quote: char)
    ensures QuotedLength(s, quote) ==
            if s == "" then 0
            else if s[0] == quote && QuotedStride(s, quote) == 1 then 1
            else QuotedStride(s, quote) + QuotedLength(s[QuotedStride(s, quote)..], quote)
  {
  }

  /** A quoted region is cut out the same way whatever follows it, unless that is
      another quote; an unterminated one has nothing after it. */
  lemma {:induction false} QuotedLocal(s: string, quote: char, rest: string)
    requires quote != '\\'
    requires QuotedLength(s, quote) == |s| ==> rest == "" || (Closed(s, quote) && rest[0] != quote)
    requires rest == "" || rest[0] != quote
    ensures var n := QuotedLength(s, quote); QuotedLength(s[..n] + rest, quote) == n
    decreases |s|
  {
    hide QuotedLength, QuotedStride, Closed;
    QuotedLengthUnfold(s, quote);
    var n := QuotedLength(s, quote);
    var t := s[..n] + rest;
    QuotedLengthUnfold(t, quote);
    ClosedUnfold(s, quote);
    if s == "" {
      assert t == rest;
    } else {
      var k := QuotedStride(s, quote);
      StrideLocal(s, n, quote, rest);
      assert t[0] == s[0];
      if !(s[0] == quote && k == 1) {
        assert t[k..] == s[k..][..n - k] + rest;
        QuotedLocal(s[k..], quote, rest);
      }
    }
  }

  /** The quoted region in `s` has a closing quote. */
  predicate Closed(s: string, quote: char)
    decreases |s|
  {
    s != "" &&
    (if s[0] == quote && QuotedStride(s, quote) == 1 then true
     else Closed(s[QuotedStride(s, quote)..], quote))
  }

  lemma ClosedUnfold(s: string, quote: char)
    ensures Closed(s, quote) ==
            (s != "" && ((s[0] == quote && QuotedStride(s, quote) == 1) || Closed(s[QuotedStride(s, quote)..], quote)))
    ensures s != "" && s[0] == '\\' && |s| == 1 && quote != '\\' ==> !Closed(s, quote)
  {
  }

  lemma {:induction false} OpenTakesAll(s: string, quote: char)
    ensures !Closed(s, quote) ==> QuotedLength(s, quote) == |s|
    ensures Closed(s, quote) && QuotedLength(s, quote) < |s| ==> s[QuotedLength(s, quote)] != quote
    decreases |s|
  {
    hide QuotedLength, Closed;
    QuotedLengthUnfold(s, quote);
    ClosedUnfold(s, quote);
    if s != "" {
      OpenTakesAll(s[QuotedStride(s, quote)..], quote);
    }
  }

  /** The first byte of normalized text is the one of the text, unless an alias
      stood there. */
  lemma FirstByte(s: string)
    ensures s == "" <==> Normalize(s) == ""
    ensures s != "" ==> Normalize(s)[0] == s[0] || (IsLetter(s[0]) && Normalize(s)[0] == 't')
  {
    hide Normalize, IsAlias;
    NormalizeUnfold(s);
    if s != "" {
      var p := s[..PieceLength(s)];
      if IsAlias(p) { AliasFirst(p); }
    }
  }

  lemma AliasFirst(p: string)
    requires IsAlias(p) && p != ""
    ensures IsLetter(p[0])
  {
    AliasIsIdentifier(p);
  }

  /** A rewritten piece, in front of the normalized rest, is read as one piece
      again and left alone. */
  lemma PieceStable(s: string)
    requires s != ""
    ensures var n := PieceLength(s);
            Normalize(Rewrite(s[..n]) + Normalize(s[n..])) == Rewrite(s[..n]) + Normalize(Normalize(s[n..]))
  {
    hide Normalize, QuotedLength, IdentLength, IsAlias, Closed;
    var n := PieceLength(s);
    var p, rest := s[..n], Normalize(s[n..]);
    FirstByte(s[n..]);
    if IsAlias(p) {
      AliasTextStable(rest);
    } else {
      var t := p + rest;
      assert t[0] == s[0];
      AppendTail(p, rest);
      DropPrefix(p, rest);
      if IsQuote(s[0]) {
        OpenTakesAll(s[1..], s[0]);
        assert p[1..] == s[1..][..n - 1];
        QuotedLocal(s[1..], s[0], rest);
      } else if IdentStart(s[0]) {
        assert p[1..] == s[1..][..n - 1];
        IdentCut(s[1..]);
        IdentAppend(p[1..], rest);
      }
      assert PieceLength(t) == n;
      NormalizeUnfold(t);
    }
  }

  lemma OneByte(c: char, rest: string)
    requires !IsQuote(c) && !IdentStart(c)
    ensures Normalize([c] + rest) == [c] + Normalize(rest)
  {
    hide Normalize, QuotedLength, IdentLength;
    var t := [c] + rest;
    assert t[..1] == [c] && t[1..] == rest;
    NormalizeUnfold(t);
    RewriteOther(t, [c]);
  }

  lemma AliasTextStable(rest: string)
    ensures Normalize("tinyint(1)" + rest) == "tinyint(1)" + Normalize(rest)
  {
    hide Normalize, Rewrite, QuotedLength, IdentLength;
    var tail := ['('] + (['1'] + ([')'] + rest));
    assert "tinyint(1)" + rest == "tinyint" + tail;
    OneByte('(', ['1'] + ([')'] + rest));
    OneByte('1', [')'] + rest);
    OneByte(')', rest);
    var word := "tinyint";
    var t := word + tail;
    assert t[1..] == word[1..] + tail;
    WordRun(word[1..]);
    IdentAppend(word[1..], tail);
    assert PieceLength(t) == 7;
    DropPrefix(word, tail);
    NormalizeUnfold(t);
    TinyintIsNoAlias();
  }

  lemma TinyintIsNoAlias()
    ensures Rewrite("tinyint") == "tinyint"
  {
    assert |ToLower("tinyint")| == 7;
    assert ToLower("tinyint")[0] == 't' && "boolean"[0] == 'b';
  }

  lemma {:induction false} NormalizeTwice(s: string)
    ensures Normalize(Normalize(s)) == Normalize(s)
    decreases |s|
  {
    hide Rewrite, PieceLength, Normalize;
    NormalizeUnfold(s);
    if s != "" {
      PieceStable(s);
      NormalizeTwice(s[PieceLength(s)..]);
    }
  }

  const CREATE_TABLE: string := "CREATE TABLE"

  lemma {:induction false} TrimRightKeepsPrefix(s: string)
    ensures HasPrefix(ToUpper(TrimRight(s)), CREATE_TABLE) <==> HasPrefix(ToUpper(s), CREATE_TABLE)
    decreases |s|
  {
    if s != "" && IsSpace(s[|s| - 1]) {
      var t := s[..|s| - 1];
      TrimRightKeepsPrefix(t);
      assert ToUpper(t) == ToUpper(s)[..|t|];
      if |s| > 12 {
        assert ToUpper(t)[..12] == ToUpper(s)[..12];
      } else if |s| == 12 {
        assert ToUpper(s)[..12][11] == Upper(s[11]);
      }
    }
  }

  lemma {:induction false} NormalizeTrimLeft(s: string)
    ensures TrimLeft(Normalize(s)) == Normalize(TrimLeft(s))
    decreases |s|
  {
    hide Normalize;
    FirstByte(s);
    if s != "" && IsSpace(s[0]) {
      OneByte(s[0], s[1..]);
      HeadTail(s);
      AppendTail([s[0]], Normalize(s[1..]));
      NormalizeTrimLeft(s[1..]);
    }
  }

  lemma UpperPrefix(s: string, p: string)
    ensures HasPrefix(ToUpper(s), p) <==> |p| <= |s| && forall k :: 0 <= k < |p| ==> Upper(s[k]) == p[k]
  {
    if |p| <= |s| {
      var u := ToUpper(s)[..|p|];
      assert forall k :: 0 <= k < |p| ==> u[k] == Upper(s[k]);
    }
  }

  lemma NotAlias(p: string)
    requires p != "" && Lower(p[0]) != 'b'
    ensures !IsAlias(p)
  {
    assert ToLower(p)[0] == Lower(p[0]);
  }

  /** The words CREATE and TABLE stay where they are. */
  lemma CreateTableKept(s: string)
    requires HasPrefix(ToUpper(s), CREATE_TABLE)
    ensures HasPrefix(ToUpper(Normalize(s)), CREATE_TABLE)
  {
    hide Normalize, IdentLength, QuotedLength, HasPrefix, ToUpper, IsAlias;
    UpperPrefix(s, CREATE_TABLE);
    UpperPrefix(Normalize(s), CREATE_TABLE);
    assert forall k :: 0 <= k < 12 ==> Upper(s[k]) == CREATE_TABLE[k];
    assert forall k :: 0 <= k < 12 && k != 6 ==> IsLetter(s[k]);
    assert s[6] == ' ';
    IdentAtLeast(s[1..], 5);
    assert s[1..][5] == s[6];
    assert PieceLength(s) == 6;
    NotAlias(s[..6]);
    NormalizeUnfold(s);
    OneByte(s[6], s[7..]);
    assert s[6..] == [s[6]] + s[7..];
    var t := s[7..];
    IdentAtLeast(t[1..], 4);
    NotAlias(t[..PieceLength(t)]);
    NormalizeUnfold(t);
    var n := PieceLength(t);
    var out := s[..6] + ([s[6]] + (t[..n] + Normalize(t[n..])));
    assert Normalize(s) == out;
    assert forall k :: 0 <= k < 12 ==> out[k] == s[k];
  }

  /** Normalizing twice changes nothing more, for every query. */
  lemma NormalizeTypesIdempotent(q: string)
    ensures NormalizeTypes(NormalizeTypes(q)) == NormalizeTypes(q)
  {
    hide Normalize, HasPrefix, ToUpper, TrimLeft, TrimRight;
    if IsCreateTable(q) {
      TrimRightKeepsPrefix(TrimLeft(q));
      CreateTableKept(TrimLeft(q));
      NormalizeTrimLeft(q);
      TrimRightKeepsPrefix(TrimLeft(Normalize(q)));
      NormalizeTwice(q);
    }
  }

  /** What counts as an identifier here is decided left to right: letters after
      a digit start one, so `1bool` contains an alias. */
  lemma AliasAfterDigit(d: char)
    requires IsDigit(d)
    ensures Normalize([d] + "bool") == [d] + "tinyint(1)"
  {
    hide Normalize, IdentLength, QuotedLength;
    OneByte(d, "bool");
    WordRun("ool");
    assert "bool"[1..] == "ool" && "bool"[..4] == "bool" && "bool"[4..] == "";
    assert PieceLength("bool") == 4;
    NormalizeUnfold("bool");
    NormalizeUnfold("");
    assert ToLower("bool") == "bool";
    assert "tinyint(1)" + "" == "tinyint(1)";
  }

  lemma {:induction false} SpacesTrimmed(spaces: string, t: string)
    requires (forall k :: 0 <= k < |spaces| ==> IsSpace(spaces[k])) && t != "" && !IsSpace(t[0])
    ensures TrimLeft(spaces + t) == t
  {
    if spaces == "" {
      assert spaces + t == t;
    } else {
      AppendTail(spaces, t);
      SpacesTrimmed(spaces[1..], t);
    }
  }

  /** Only text that starts with the words CREATE TABLE, one blank between them and
      blanks before them at most, is normalized; any other stays as it is. */
  lemma NormalizesCreateTable(spaces: string, t: string)
    requires (forall k :: 0 <= k < |spaces| ==> IsSpace(spaces[k])) && t != "" && !IsSpace(t[0])
    ensures var q := spaces + t;
            NormalizeTypes(q) == if |t| >= 12 && ToUpper(t[..12]) == "CREATE TABLE" then Normalize(q) else q
  {
    hide Normalize, TrimLeft, TrimRight;
    SpacesTrimmed(spaces, t);
    TrimRightKeepsPrefix(t);
    if |t| >= 12 { assert ToUpper(t)[..12] == ToUpper(t[..12]); }
  }
}
