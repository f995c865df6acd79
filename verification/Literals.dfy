/** The SQL literal printer (`sqlLiteral`) and the token scanner for quoted text. */
module Literals {
  import opened Prelude

  /** A bind argument. A float carries the text `fmt.Sprint` gives for it. */
  datatype Arg =
    | NullArg
    | StrArg(s: string)
    | BytesArg(s: string)
    | BoolArg(b: bool)
    | IntArg(n: int)
    | FloatArg(text: string)
    | OtherArg

  predicate Supported(a: Arg) {
    !a.OtherArg?
  }

  const NUL: char := 0 as char

  /** `strings.NewReplacer("\\", "\\\\", "'", "\\'", "\x00", "\\0").Replace`. */
  function EscapeChar(c: char): string {
    if c == '\\' then "\\\\" else if c == '\'' then "\\'" else if c == NUL then "\\0" else [c]
  }

  function Escape(s: string): string {
    if s == "" then "" else EscapeChar(s[0]) + Escape(s[1..])
  }

  lemma EscapeUnfold(s: string)
    ensures Escape(s) == if s == "" then "" else EscapeChar(s[0]) + Escape(s[1..])
  {
  }

  function StringLiteral(s: string): string {
    ['\''] + Escape(s) + ['\'']
  }

  function SqlLiteral(a: Arg): Result<string> {
    match a
    case NullArg => Ok("null")
    case StrArg(s) => Ok(StringLiteral(s))
    case BytesArg(s) => Ok(StringLiteral(s))
    case BoolArg(b) => Ok(if b then "true" else "false")
    case IntArg(n) => Ok(IntText(n))
    case FloatArg(text) => Ok(text)
    case OtherArg => Err("unsupported parameter type")
  }

  /** What MySQL reads for a backslash followed by `c` (MySQL 8.0 Reference
      Manual, section 9.1.1): `\%` and `\_` keep the backslash. */
  function Unescape(c: char): string {
    match c
    case '0' => [NUL]
    case 'b' => [8 as char]
    case 'n' => "\n"
    case 'r' => "\r"
    case 't' => "\t"
    case 'Z' => [26 as char]
    case '%' => "\\%"
    case '_' => "\\_"
    case _ => [c]
  }

  /** A scanned quoted token: its decoded value and the bytes read after the
      opening quote, closing quote included. */
  datatype Quoted = Quoted(text: string, len: nat)

  /** The next element of a quoted token: what it decodes to and how many bytes
      it takes, or `None` at the closing quote. A doubled quote stands for one
      quote; with `escapes`, a backslash escapes the byte after it. */
  function QuotedStep(s: string, quote: char, escapes: bool): (r: Option<Quoted>)
    requires s != ""
    ensures r.Some? ==> 1 <= r.value.len <= |s|
    ensures r.None? ==> s[0] == quote
  {
    if s[0] == quote then
      if |s| > 1 && s[1] == quote then Some(Quoted([quote], 2)) else None
    else if s[0] == '\\' && escapes && |s| > 1 then Some(Quoted(Unescape(s[1]), 2))
    else Some(Quoted([s[0]], 1))
  }

  /** `s` starts just after an opening `quote`. */
  function ScanQuoted(s: string, quote: char, escapes: bool): (r: Option<Quoted>)
    ensures r.Some? ==> 1 <= r.value.len <= |s| && s[r.value.len - 1] == quote
    decreases |s|
  {
    if s == "" then None
    else match QuotedStep(s, quote, escapes)
      case None => Some(Quoted("", 1))
      case Some(e) => Resume(e, ScanQuoted(s[e.len..], quote, escapes))
  }

  function Resume(head: Quoted, r: Option<Quoted>): Option<Quoted> {
    match r
    case None => None
    case Some(q) => Some(Quoted(head.text + q.text, head.len + q.len))
  }

  lemma ResumeNothing(r: Option<Quoted>)
    ensures Resume(Quoted("", 0), r) == r
  {
    if r.Some? { assert "" + r.value.text == r.value.text; }
  }

  lemma ResumeTwice(a: Quoted, b: Quoted, r: Option<Quoted>)
    ensures Resume(a, Resume(b, r)) == Resume(Quoted(a.text + b.text, a.len + b.len), r)
  {
    if r.Some? { Assoc(a.text, b.text, r.value.text); }
  }

  lemma ScanUnfold(s: string, quote: char, escapes: bool)
    requires s != ""
    ensures ScanQuoted(s, quote, escapes) ==
            match QuotedStep(s, quote, escapes)
            case None => Some(Quoted("", 1))
            case Some(e) => Resume(e, ScanQuoted(s[e.len..], quote, escapes))
  {
  }

  /** Scanning a token cut off after its closing quote, with `rest` appended. */
  lemma ScanCut(s: string, quote: char, escapes: bool, rest: string)
    requires s != "" && ScanQuoted(s, quote, escapes).Some? && QuotedStep(s, quote, escapes).Some?
    ensures var n, e := ScanQuoted(s, quote, escapes).value.len, QuotedStep(s, quote, escapes).value;
            var t := s[e.len..];
            && ScanQuoted(t, quote, escapes).Some? && ScanQuoted(t, quote, escapes).value.len == n - e.len
            && ScanQuoted(s[..n] + rest, quote, escapes)
            == Resume(e, ScanQuoted(t[..n - e.len] + rest, quote, escapes))
  {
    hide ScanQuoted;
    ScanUnfold(s, quote, escapes);
    var n, e := ScanQuoted(s, quote, escapes).value.len, QuotedStep(s, quote, escapes).value;
    assert (s[..n] + rest)[e.len..] == s[e.len..][..n - e.len] + rest;
    assert QuotedStep(s[..n] + rest, quote, escapes) == Some(e);
    ScanUnfold(s[..n] + rest, quote, escapes);
  }

  lemma ScanCutClosing(s: string, quote: char, escapes: bool, rest: string)
    requires s != "" && QuotedStep(s, quote, escapes).None?
    ensures QuotedStep(s[..1] + rest, quote, escapes) ==
            if rest != "" && rest[0] == quote then Some(Quoted([quote], 2)) else None
  {
    var t := s[..1] + rest;
    assert t[0] == quote && (rest != "" ==> t[1] == rest[0]);
  }

  /** A quoted token is read the same way whatever follows it, as long as what
      follows is not another quote. */
  lemma {:induction false} ScanQuotedLocal(s: string, quote: char, escapes: bool, rest: string)
    requires ScanQuoted(s, quote, escapes).Some?
    requires rest == "" || rest[0] != quote
    ensures var n := ScanQuoted(s, quote, escapes).value.len;
            ScanQuoted(s[..n] + rest, quote, escapes) == ScanQuoted(s, quote, escapes)
    decreases |s|
  {
    hide *;
    ScanUnfold(s, quote, escapes);
    if QuotedStep(s, quote, escapes).Some? {
      ScanCut(s, quote, escapes, rest);
      ScanQuotedLocal(s[QuotedStep(s, quote, escapes).value.len..], quote, escapes, rest);
    } else {
      ScanCutClosing(s, quote, escapes, rest);
      ScanUnfold(s[..1] + rest, quote, escapes);
    }
  }

  /** If a quote does follow, the two tokens merge: the scan reads a longer
      value or never ends. */
  lemma {:induction false} ScanQuotedMerges(s: string, quote: char, escapes: bool, rest: string)
    requires ScanQuoted(s, quote, escapes).Some?
    requires rest != "" && rest[0] == quote
    ensures var q := ScanQuoted(s, quote, escapes).value;
            var m := ScanQuoted(s[..q.len] + rest, quote, escapes);
            m == None || |m.value.text| > |q.text|
    decreases |s|
  {
    hide ScanQuoted, QuotedStep;
    ScanUnfold(s, quote, escapes);
    if QuotedStep(s, quote, escapes).Some? {
      ScanCut(s, quote, escapes, rest);
      ScanQuotedMerges(s[QuotedStep(s, quote, escapes).value.len..], quote, escapes, rest);
    } else {
      ScanCutClosing(s, quote, escapes, rest);
      ScanUnfold(s[..1] + rest, quote, escapes);
    }
  }

  // ------------------------------------------------------- when escapes matter

  /** Backslashes directly before position k. */
  function BackslashRun(s: string, k: nat): (n: nat)
    requires k <= |s|
    ensures n <= k
  {
    if k > 0 && s[k - 1] == '\\' then 1 + BackslashRun(s, k - 1) else 0
  }

  /** Every quote in `s` stands after an even number of backslashes. */
  predicate EvenBackslashes(s: string, quote: char) {
    forall k :: 0 <= k < |s| && s[k] == quote ==> BackslashRun(s, k) % 2 == 0
  }

  lemma {:induction false} RunDropped(s: string, m: nat, k: nat)
    requires m <= k <= |s|
    ensures BackslashRun(s, k) == BackslashRun(s[m..], k - m)
                                  + if BackslashRun(s[m..], k - m) == k - m then BackslashRun(s, m) else 0
  {
    if k > m { RunDropped(s, m, k - 1); }
  }

  lemma RunSplit(s: string, n: nat, m: nat, k: nat)
    requires m <= n <= |s| && k < n && BackslashRun(s, m) % 2 == 0
    ensures k < m ==> BackslashRun(s[..m], k) == BackslashRun(s[..n], k)
    ensures k >= m ==> BackslashRun(s[m..][..n - m], k - m) % 2 == BackslashRun(s[..n], k) % 2
  {
    hide BackslashRun;
    RunTaken(s, n, k);
    if k < m {
      RunTaken(s, m, k);
    } else {
      RunTaken(s[m..], n - m, k - m);
      RunDropped(s, m, k);
    }
  }

  lemma DropEven(s: string, n: nat, m: nat, quote: char)
    requires quote != '\\' && m <= n <= |s| && BackslashRun(s, m) % 2 == 0
    ensures EvenBackslashes(s[..n], quote) <==> EvenBackslashes(s[..m], quote) && EvenBackslashes(s[m..][..n - m], quote)
  {
    hide BackslashRun;
    if EvenBackslashes(s[..m], quote) && EvenBackslashes(s[m..][..n - m], quote) {
      forall k | 0 <= k < n && s[..n][k] == quote ensures BackslashRun(s[..n], k) % 2 == 0 {
        RunSplit(s, n, m, k);
        if k < m { assert s[..m][k] == quote; } else { assert s[m..][..n - m][k - m] == quote; }
      }
    }
    if EvenBackslashes(s[..n], quote) {
      forall k | 0 <= k < m && s[..m][k] == quote ensures BackslashRun(s[..m], k) % 2 == 0 {
        RunSplit(s, n, m, k);
        assert s[..n][k] == quote;
      }
      var tail := s[m..][..n - m];
      forall k | 0 <= k < |tail| && tail[k] == quote ensures BackslashRun(tail, k) % 2 == 0 {
        RunSplit(s, n, m, k + m);
        assert s[..n][k + m] == quote;
      }
    }
  }

  lemma {:induction false} RunTaken(s: string, n: nat, k: nat)
    requires k <= n <= |s|
    ensures BackslashRun(s[..n], k) == BackslashRun(s, k)
  {
    if k > 0 { RunTaken(s, n, k - 1); }
  }

  /** One quote ahead, the scans never meet again: where a run of quotes is read
      from its second byte, it ends earlier or later. */
  lemma {:induction false} ShiftedEnds(u: string, quote: char)
    requires quote != '\\' && u != "" && u[0] == quote && ScanQuoted(u, quote, false).Some?
    ensures ScanQuoted(u[1..], quote, true).Some? ==>
              ScanQuoted(u[1..], quote, true).value.len + 1 != ScanQuoted(u, quote, false).value.len
    decreases |u|
  {
    hide ScanQuoted;
    ScanUnfold(u, quote, false);
    if |u| > 1 && u[1] == quote {
      ScanUnfold(u[1..], quote, true);
      if |u| > 2 && u[2] == quote {
        assert u[1..][2..] == u[2..][1..];
        ShiftedEnds(u[2..], quote);
      }
    }
  }

  /** The escape rule makes no difference to where a token ends exactly when
      every quote in it, the closing one included, stands after an even number of
      backslashes. */
  lemma {:induction false} EscapesAgree(s: string, quote: char)
    requires quote != '\\' && ScanQuoted(s, quote, false).Some?
    ensures var n := ScanQuoted(s, quote, false).value.len;
            (ScanQuoted(s, quote, true).Some? && ScanQuoted(s, quote, true).value.len == n
             <==> EvenBackslashes(s[..n], quote))
    decreases |s|
  {
    hide ScanQuoted, EvenBackslashes;
    ScanUnfold(s, quote, false);
    ScanUnfold(s, quote, true);
    var n := ScanQuoted(s, quote, false).value.len;
    if s[0] == quote {
      if |s| > 1 && s[1] == quote {
        EscapesAgree(s[2..], quote);
        DropEven(s, n, 2, quote);
        TwoEven(s, quote);
      } else {
        OneEven(s, quote);
      }
    } else if s[0] == '\\' && |s| > 1 {
      ScanUnfold(s[1..], quote, false);
      assert s[1..][1..] == s[2..];
      if s[1] == quote {
        ShiftedEnds(s[1..], quote);
        assert s[..n][1] == quote && BackslashRun(s[..n], 1) == 1 + BackslashRun(s[..n], 0);
        OddBreaks(s[..n], quote);
      } else {
        EscapesAgree(s[2..], quote);
        DropEven(s, n, 2, quote);
        TwoEven(s, quote);
      }
    } else {
      EscapesAgree(s[1..], quote);
      DropEven(s, n, 1, quote);
      OneEven(s, quote);
    }
  }

  lemma OneEven(s: string, quote: char)
    requires s != ""
    ensures EvenBackslashes(s[..1], quote)
  {
  }

  lemma TwoEven(s: string, quote: char)
    requires |s| >= 2 && (s[0] == '\\' ==> s[1] != quote)
    ensures EvenBackslashes(s[..2], quote)
  {
  }

  lemma OddBreaks(s: string, quote: char)
    requires |s| >= 2 && s[1] == quote && BackslashRun(s, 1) == 1
    ensures !EvenBackslashes(s, quote)
  {
  }

  lemma ScanEscapedChar(c: char, t: string)
    ensures ScanQuoted(EscapeChar(c) + t, '\'', true)
         == Resume(Quoted([c], |EscapeChar(c)|), ScanQuoted(t, '\'', true))
  {
    var e := EscapeChar(c);
    DropPrefix(e, t);
    assert QuotedStep(e + t, '\'', true) == Some(Quoted([c], |e|));
  }

  lemma ResumeHead(s: string, m: nat, n: nat)
    requires s != ""
    ensures Resume(Quoted([s[0]], m), Some(Quoted(s[1..], n))) == Some(Quoted(s, m + n))
  {
    HeadTail(s);
  }

  /** `tail` closes a token opened with `quote`. */
  predicate Closes(tail: string, quote: char) {
    tail != "" && tail[0] == quote && (|tail| > 1 ==> tail[1] != quote)
  }

  lemma ScanClosing(tail: string, quote: char, escapes: bool)
    requires Closes(tail, quote)
    ensures ScanQuoted("" + tail, quote, escapes) == Some(Quoted("", 1))
  {
    assert "" + tail == tail;
  }

  /** Reading back `sqlLiteral(s)` yields `s`, for every byte string. */
  lemma {:induction false} StringLiteralDecodes(s: string, tail: string)
    requires Closes(tail, '\'')
    ensures ScanQuoted(Escape(s) + tail, '\'', true) == Some(Quoted(s, |Escape(s)| + 1))
    decreases |s|
  {
    hide *;
    EscapeUnfold(s);
    if s == "" {
      ScanClosing(tail, '\'', true);
      return;
    }
    var t := Escape(s[1..]) + tail;
    StringLiteralDecodes(s[1..], tail);
    ScanEscapedChar(s[0], t);
    Assoc(EscapeChar(s[0]), Escape(s[1..]), tail);
    ResumeHead(s, |EscapeChar(s[0])|, |Escape(s[1..])| + 1);
  }

  /** Doubling every `quote`, as the identifier rewrite does with backticks. */
  function DoubleChar(c: char, quote: char): string {
    if c == quote then [quote, quote] else [c]
  }

  function Double(s: string, quote: char): string {
    if s == "" then "" else DoubleChar(s[0], quote) + Double(s[1..], quote)
  }

  lemma DoubleUnfold(s: string, quote: char)
    ensures Double(s, quote) == if s == "" then "" else DoubleChar(s[0], quote) + Double(s[1..], quote)
  {
  }

  lemma ScanDoubledChar(c: char, quote: char, t: string)
    ensures ScanQuoted(DoubleChar(c, quote) + t, quote, false)
         == Resume(Quoted([c], |DoubleChar(c, quote)|), ScanQuoted(t, quote, false))
  {
    var e := DoubleChar(c, quote);
    DropPrefix(e, t);
    assert QuotedStep(e + t, quote, false) == Some(Quoted([c], |e|));
  }

  lemma {:induction false} DoubledDecodes(s: string, quote: char, tail: string)
    requires Closes(tail, quote)
    ensures ScanQuoted(Double(s, quote) + tail, quote, false) == Some(Quoted(s, |Double(s, quote)| + 1))
    decreases |s|
  {
    hide *;
    DoubleUnfold(s, quote);
    if s == "" {
      ScanClosing(tail, quote, false);
      return;
    }
    var t := Double(s[1..], quote) + tail;
    DoubledDecodes(s[1..], quote, tail);
    ScanDoubledChar(s[0], quote, t);
    Assoc(DoubleChar(s[0], quote), Double(s[1..], quote), tail);
    ResumeHead(s, |DoubleChar(s[0], quote)|, |Double(s[1..], quote)| + 1);
  }
}
