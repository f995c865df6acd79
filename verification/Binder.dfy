/** `bindSQL`: one pass over a query that replaces placeholders by literals and,
    for PostgreSQL, rewrites quoted tokens into MySQL quoting. */
module Binder {
  import opened Prelude
  import opened Literals
  import opened Lexer

  datatype BoundSql = BoundSql(text: string, count: nat)

  function Prepend(head: string, r: Result<BoundSql>): Result<BoundSql> {
    match r
    case Err(e) => Err(e)
    case Ok(b) => Ok(BoundSql(head + b.text, b.count))
  }

  lemma PrependNothing(r: Result<BoundSql>)
    ensures Prepend("", r) == r
  {
    if r.Ok? { assert "" + r.value.text == r.value.text; }
  }

  lemma PrependTwice(a: string, b: string, r: Result<BoundSql>)
    ensures Prepend(a, Prepend(b, r)) == Prepend(a + b, r)
  {
    if r.Ok? { Assoc(a, b, r.value.text); }
  }

  /** What a quoted token becomes. */
  function RewriteQuoted(d: Dialect, quote: char, value: string, raw: string): Result<string> {
    if d == MySql then Ok(raw)
    else if quote == '"' then Ok(['`'] + Double(value, '`') + ['`'])
    else if quote == '\'' then Ok(StringLiteral(value))
    else Err("use double quotes for PostgreSQL identifiers")
  }

  /** What a placeholder becomes. */
  function Substitute(idx: nat, args: seq<Arg>, describe: bool): Result<string>
    requires idx >= 1
  {
    if describe then Ok("0")
    else if idx > |args| then Err("missing parameter")
    else SqlLiteral(args[idx - 1])
  }

  /** One step of binding: the text it emits, the bytes it consumes and the
      parameter count after it. */
  datatype Piece = Piece(text: string, len: nat, count: nat)

  function QuotedPiece(s: string, d: Dialect, count: nat): (r: Result<Piece>)
    requires s != ""
    ensures r.Ok? ==> 1 <= r.value.len <= |s| && r.value.count == count
  {
    match ScanQuoted(s[1..], s[0], d == MySql)
    case None => Err("unterminated quoted token")
    case Some(q) =>
      match RewriteQuoted(d, s[0], q.text, s[..q.len + 1])
      case Err(e) => Err(e)
      case Ok(text) => Ok(Piece(text, q.len + 1, count))
  }

  function CommentPiece(s: string, count: nat): (r: Result<Piece>)
    requires AtLineComment(s) || AtBlockComment(s)
    ensures r.Ok? ==> 1 <= r.value.len <= |s| && r.value.count == count && r.value.text == s[..r.value.len]
  {
    var n := if AtLineComment(s) then Some(LineCommentLength(s)) else BlockCommentLength(s);
    if n.None? then Err("unterminated comment") else Ok(Piece(s[..n.value], n.value, count))
  }

  predicate AtParam(c: char, d: Dialect) {
    (d == MySql && c == '?') || (d == Postgres && c == '$')
  }

  /** The number and the length of the placeholder at the start of `s`. */
  function ParamNumber(s: string, d: Dialect, count: nat): (r: Result<(nat, nat)>)
    requires s != ""
    ensures r.Ok? ==> 1 <= r.value.0 && 1 <= r.value.1 <= |s|
  {
    if d == MySql then Ok((count + 1, 1))
    else if DigitsLength(s[1..]) == 0 then Err("dollar-quoted strings are not supported")
    else match DollarNumber(s[1..])
      case None => Err("invalid parameter number")
      case Some((n, digits)) => Ok((n, digits + 1))
  }

  function ParamPiece(s: string, d: Dialect, args: seq<Arg>, describe: bool, count: nat): (r: Result<Piece>)
    requires s != ""
    ensures r.Ok? ==> 1 <= r.value.len <= |s| && count <= r.value.count
  {
    match ParamNumber(s, d, count)
    case Err(e) => Err(e)
    case Ok((n, len)) =>
      match Substitute(n, args, describe)
      case Err(e) => Err(e)
      case Ok(text) => Ok(Piece(text, len, Max(count, n)))
  }

  function BindStep(s: string, d: Dialect, args: seq<Arg>, describe: bool, count: nat): (r: Result<Piece>)
    requires s != ""
    ensures r.Ok? ==> 1 <= r.value.len <= |s| && count <= r.value.count
  {
    if IsQuote(s[0]) then QuotedPiece(s, d, count)
    else if AtLineComment(s) || AtBlockComment(s) then CommentPiece(s, count)
    else if AtParam(s[0], d) then ParamPiece(s, d, args, describe, count)
    else Ok(Piece([s[0]], 1, count))
  }

  /** Binding of the rest `s` of a query after `count` parameters. */
  function Bind(s: string, d: Dialect, args: seq<Arg>, describe: bool, count: nat): Result<BoundSql>
    decreases |s|
  {
    if s == "" then Ok(BoundSql("", count))
    else match BindStep(s, d, args, describe, count)
      case Err(e) => Err(e)
      case Ok(p) => Prepend(p.text, Bind(s[p.len..], d, args, describe, p.count))
  }

  lemma BindUnfold(s: string, d: Dialect, args: seq<Arg>, describe: bool, count: nat)
    ensures s == "" ==> Bind(s, d, args, describe, count) == Ok(BoundSql("", count))
    ensures s != "" && BindStep(s, d, args, describe, count).Err? ==>
              Bind(s, d, args, describe, count) == Err(BindStep(s, d, args, describe, count).reason)
    ensures s != "" && BindStep(s, d, args, describe, count).Ok? ==>
              var p := BindStep(s, d, args, describe, count).value;
              Bind(s, d, args, describe, count) == Prepend(p.text, Bind(s[p.len..], d, args, describe, p.count))
  {
  }

  /** A byte that is copied whatever follows it. */
  predicate Unspecial(c: char) {
    !IsQuote(c) && c != '-' && c != '/' && c != '?' && c != '$'
  }

  lemma {:induction false} BindPlain(x: string, rest: string, d: Dialect, args: seq<Arg>, describe: bool, count: nat)
    requires forall c :: c in x ==> Unspecial(c)
    ensures Bind(x + rest, d, args, describe, count) == Prepend(x, Bind(rest, d, args, describe, count))
    decreases |x|
  {
    hide Bind, Prepend;
    if x == "" {
      assert x + rest == rest;
      PrependNothing(Bind(rest, d, args, describe, count));
    } else {
      AppendTail(x, rest);
      assert x[0] in x && Unspecial(x[0]);
      BindUnfold(x + rest, d, args, describe, count);
      BindPlain(x[1..], rest, d, args, describe, count);
      PrependTwice([x[0]], x[1..], Bind(rest, d, args, describe, count));
      HeadTail(x);
    }
  }

  function BindSql(q: string, d: Dialect, args: seq<Arg>, describe: bool): Result<BoundSql> {
    match Bind(q, d, args, describe, 0)
    case Err(e) => Err(e)
    case Ok(b) =>
      if !describe && b.count != |args| then Err("wrong number of parameters") else Ok(b)
  }

  lemma Skip(q: string, i: nat, n: nat)
    requires i + n <= |q|
    ensures q[i..][n..] == q[i + n..] && q[i..][..n] == q[i..i + n]
  {
  }

  lemma StepAt(q: string, j: nat, quote: char, escapes: bool)
    requires j < |q|
    ensures QuotedStep(q[j..], quote, escapes) ==
            if q[j] == quote then
              if j + 1 < |q| && q[j + 1] == quote then Some(Quoted([quote], 2)) else None
            else if q[j] == '\\' && escapes && j + 1 < |q| then Some(Quoted(Unescape(q[j + 1]), 2))
            else Some(Quoted([q[j]], 1))
  {
  }

  /** The inner loop of `bindSQL`: scans a quoted token from its opening quote
      at `i`. `value` is what PostgreSQL decodes; MySQL copies the bytes. */
  method ReadQuoted(q: string, i: nat, mysql: bool) returns (closed: bool, value: string, j: nat)
    requires i < |q| && IsQuote(q[i])
    ensures closed == ScanQuoted(q[i + 1..], q[i], mysql).Some?
    ensures closed ==> i < j <= |q| && j == i + 1 + ScanQuoted(q[i + 1..], q[i], mysql).value.len
    ensures closed && !mysql ==> value == ScanQuoted(q[i + 1..], q[i], mysql).value.text
  {
    hide ScanQuoted, QuotedStep, Resume, Unescape;
    var quote := q[i];
    j := i + 1;
    value := "";
    closed := false;
    ghost var whole := ScanQuoted(q[i + 1..], quote, mysql);
    ghost var decoded := "";
    ResumeNothing(whole);
    while j < |q|
      invariant i < j <= |q|
      invariant !closed
      invariant whole == Resume(Quoted(decoded, j - i - 1), ScanQuoted(q[j..], quote, mysql))
      invariant !mysql ==> decoded == value
      decreases |q| - j
    {
      StepAt(q, j, quote, mysql);
      ScanUnfold(q[j..], quote, mysql);
      ghost var e := QuotedStep(q[j..], quote, mysql);
      if e.Some? {
        Skip(q, j, e.value.len);
        ResumeTwice(Quoted(decoded, j - i - 1), e.value, ScanQuoted(q[j + e.value.len..], quote, mysql));
        decoded := decoded + e.value.text;
      }
      if q[j] == quote {
        if j + 1 < |q| && q[j + 1] == quote {
          value := value + [quote];
          j := j + 2;
          continue;
        }
        ResumeLast(decoded, j - i - 1);
        j := j + 1;
        closed := true;
        return;
      }
      if q[j] == '\\' && mysql && j + 1 < |q| {
        j := j + 2;
        continue;
      }
      value := value + [q[j]];
      j := j + 1;
    }
    ScanNothing(Quoted(decoded, j - i - 1), q[j..], quote, mysql);
  }

  lemma ResumeLast(text: string, n: nat)
    ensures Resume(Quoted(text, n), Some(Quoted("", 1))) == Some(Quoted(text, n + 1))
  {
    assert text + "" == text;
  }

  lemma ScanNothing(head: Quoted, s: string, quote: char, escapes: bool)
    requires |s| == 0
    ensures Resume(head, ScanQuoted(s, quote, escapes)) == None
  {
  }

  method ReadDigits(q: string, start: nat) returns (end: nat)
    requires start <= |q|
    ensures start <= end <= |q| && end == start + DigitsLength(q[start..])
  {
    end := start;
    while end < |q| && '0' <= q[end] <= '9'
      invariant start <= end <= |q|
      invariant DigitsLength(q[start..]) == end - start + DigitsLength(q[end..])
    {
      Skip(q, end, 1);
      end := end + 1;
    }
  }

  lemma CommentStarts(q: string, i: nat)
    requires i < |q|
    ensures AtLineComment(q[i..]) == (i + 1 < |q| && q[i..i + 2] == "--")
    ensures AtBlockComment(q[i..]) == (i + 1 < |q| && q[i..i + 2] == "/*")
  {
    if i + 1 < |q| { assert q[i..i + 2] == [q[i], q[i + 1]]; }
  }

  method BindQuoted(q: string, i: nat, d: Dialect, count: nat) returns (r: Result<Piece>)
    requires i < |q| && IsQuote(q[i])
    ensures r == QuotedPiece(q[i..], d, count)
  {
    hide ScanQuoted, Double, Escape;
    Skip(q, i, 1);
    var closed, value, j := ReadQuoted(q, i, d == MySql);
    if !closed {
      return Err("unterminated quoted token");
    }
    Skip(q, i, j - i);
    if d == Postgres {
      if q[i] == '"' {
        return Ok(Piece(['`'] + Double(value, '`') + ['`'], j - i, count));
      } else if q[i] == '\'' {
        return Ok(Piece(StringLiteral(value), j - i, count));
      }
      return Err("use double quotes for PostgreSQL identifiers");
    }
    return Ok(Piece(q[i..j], j - i, count));
  }

  method BindComment(q: string, i: nat, count: nat) returns (r: Result<Piece>)
    requires i < |q| && (AtLineComment(q[i..]) || AtBlockComment(q[i..]))
    ensures r == CommentPiece(q[i..], count)
  {
    hide IndexByte, IndexPair;
    CommentStarts(q, i);
    if q[i..i + 2] == "--" {
      var j := IndexByte(q[i..], '\n');
      if j.None? {
        assert q[i..][..|q| - i] == q[i..];
        return Ok(Piece(q[i..], |q| - i, count));
      }
      Skip(q, i, j.value + 1);
      return Ok(Piece(q[i..i + j.value + 1], j.value + 1, count));
    }
    Skip(q, i, 2);
    var j := IndexPair(q[i + 2..], '*', '/');
    if j.None? {
      return Err("unterminated comment");
    }
    Skip(q, i, j.value + 4);
    return Ok(Piece(q[i..i + j.value + 4], j.value + 4, count));
  }

  method BindParam(q: string, i: nat, d: Dialect, args: seq<Arg>, describe: bool, count: nat)
    returns (r: Result<Piece>)
    requires i < |q| && AtParam(q[i], d)
    ensures r == ParamPiece(q[i..], d, args, describe, count)
  {
    hide DigitsLength, ParseInt, SqlLiteral;
    Skip(q, i, 1);
    var idx, end, newCount := count + 1, i + 1, count + 1;
    if d == Postgres {
      end := ReadDigits(q, i + 1);
      if end == i + 1 {
        return Err("dollar-quoted strings are not supported");
      }
      Skip(q, i + 1, end - i - 1);
      var n := ParseInt(q[i + 1..end], 64);
      if n.None? || n.value < 1 || n.value > 65535 {
        return Err("invalid parameter number");
      }
      idx := n.value;
      newCount := if n.value > count then n.value else count;
    }
    if describe {
      return Ok(Piece("0", end - i, newCount));
    }
    if idx > |args| {
      return Err("missing parameter");
    }
    var v := SqlLiteral(args[idx - 1]);
    if v.Err? {
      return Err(v.reason);
    }
    return Ok(Piece(v.value, end - i, newCount));
  }

  method BindLoop(q: string, d: Dialect, args: seq<Arg>, describe: bool) returns (r: Result<BoundSql>)
    ensures r == BindSql(q, d, args, describe)
  {
    hide Bind, Prepend, QuotedPiece, CommentPiece, ParamPiece;
    var b, i := "", 0;
    var count: nat := 0;
    assert q[0..] == q;
    PrependNothing(Bind(q, d, args, describe, 0));
    while i < |q|
      invariant 0 <= i <= |q|
      invariant Bind(q, d, args, describe, 0) == Prepend(b, Bind(q[i..], d, args, describe, count))
      decreases |q| - i
    {
      BindUnfold(q[i..], d, args, describe, count);
      PrependErr(b);
      CommentStarts(q, i);
      var step := Ok(Piece([q[i]], 1, count));
      if IsQuote(q[i]) {
        step := BindQuoted(q, i, d, count);
      } else if i + 1 < |q| && (q[i..i + 2] == "--" || q[i..i + 2] == "/*") {
        step := BindComment(q, i, count);
      } else if AtParam(q[i], d) {
        step := BindParam(q, i, d, args, describe, count);
      }
      if step.Err? {
        return Err(step.reason);
      }
      var p := step.value;
      Skip(q, i, p.len);
      PrependTwice(b, p.text, Bind(q[i + p.len..], d, args, describe, p.count));
      b, i, count := b + p.text, i + p.len, p.count;
    }
    BindEnd(b, q[i..], d, args, describe, count);
    if !describe && count != |args| {
      return Err("wrong number of parameters");
    }
    return Ok(BoundSql(b, count));
  }

  lemma PrependErr(b: string)
    ensures forall e: string :: Prepend(b, Err(e)) == Err(e)
  {
  }

  lemma BindEnd(b: string, s: string, d: Dialect, args: seq<Arg>, describe: bool, count: nat)
    requires |s| == 0
    ensures Prepend(b, Bind(s, d, args, describe, count)) == Ok(BoundSql(b, count))
  {
    assert b + "" == b;
  }

  // ------------------------------------------------- describe and value mode

  lemma ParamLockStep(s: string, d: Dialect, args: seq<Arg>, other: seq<Arg>, count: nat)
    requires s != ""
    ensures var probe := ParamPiece(s, d, other, true, count);
            var value := ParamPiece(s, d, args, false, count);
            && (value.Ok? ==> probe.Ok? && probe.value.len == value.value.len && probe.value.count == value.value.count)
            && (value.Ok? && count <= |args| ==> value.value.count <= |args|)
            && (probe.Ok? && probe.value.count <= |args| && (forall a :: a in args ==> Supported(a)) ==> value.Ok?)
  {
    hide ParamNumber;
    var n := ParamNumber(s, d, count);
    assert n.Ok? && n.value.0 <= |args| ==> args[n.value.0 - 1] in args;
  }

  /** Scanning does not depend on the mode or on the argument values. */
  lemma StepLockStep(s: string, d: Dialect, args: seq<Arg>, other: seq<Arg>, count: nat)
    requires s != ""
    ensures var probe := BindStep(s, d, other, true, count);
            var value := BindStep(s, d, args, false, count);
            && (value.Ok? ==> probe.Ok? && probe.value.len == value.value.len && probe.value.count == value.value.count)
            && (value.Ok? && count <= |args| ==> value.value.count <= |args|)
            && (probe.Ok? && probe.value.count <= |args| && (forall a :: a in args ==> Supported(a)) ==> value.Ok?)
  {
    hide QuotedPiece, CommentPiece, ParamPiece;
    ParamLockStep(s, d, args, other, count);
  }

  /** Value mode, given supported arguments for every parameter describe mode
      counts, succeeds exactly when describe mode does, with the same count. */
  lemma {:induction false} LockStep(s: string, d: Dialect, args: seq<Arg>, other: seq<Arg>, count: nat)
    ensures var probe := Bind(s, d, other, true, count);
            var value := Bind(s, d, args, false, count);
            && (value.Ok? ==> probe.Ok? && probe.value.count == value.value.count)
            && (value.Ok? && count <= |args| ==> value.value.count <= |args|)
            && (probe.Ok? ==> count <= probe.value.count)
            && (probe.Ok? && probe.value.count <= |args| && (forall a :: a in args ==> Supported(a)) ==> value.Ok?)
    decreases |s|
  {
    hide Bind, BindStep;
    BindUnfold(s, d, other, true, count);
    BindUnfold(s, d, args, false, count);
    if s != "" {
      StepLockStep(s, d, args, other, count);
      var p := BindStep(s, d, other, true, count);
      if p.Ok? { LockStep(s[p.value.len..], d, args, other, p.value.count); }
    }
  }

  /** Prepared-statement arity: with supported arguments, executing succeeds
      exactly when preparing does and the argument count is the one announced. */
  lemma BindSqlArity(q: string, d: Dialect, args: seq<Arg>)
    requires forall a :: a in args ==> Supported(a)
    ensures BindSql(q, d, args, false).Ok? <==>
            BindSql(q, d, [], true).Ok? && BindSql(q, d, [], true).value.count == |args|
    ensures BindSql(q, d, args, false).Ok? ==> BindSql(q, d, args, false).value.count == |args|
  {
    hide Bind;
    LockStep(q, d, args, [], 0);
  }

  lemma MySqlStepCopies(s: string, args: seq<Arg>, describe: bool, count: nat)
    requires s != ""
    ensures var p := BindStep(s, MySql, args, describe, count);
            p.Ok? && p.value.count == count ==> p.value.text == s[..p.value.len]
  {
    hide ScanQuoted, IndexByte, IndexPair;
    assert s[..1] == [s[0]];
  }

  /** A MySQL query without placeholders is bound to itself. */
  lemma {:induction false} MySqlIdentity(s: string, args: seq<Arg>, describe: bool, count: nat)
    requires Bind(s, MySql, args, describe, count).Ok?
    ensures var b := Bind(s, MySql, args, describe, count).value;
            count <= b.count && (b.count == count ==> b.text == s)
    decreases |s|
  {
    hide Bind, BindStep;
    BindUnfold(s, MySql, args, describe, count);
    if s != "" {
      MySqlStepCopies(s, args, describe, count);
      var p := BindStep(s, MySql, args, describe, count).value;
      MySqlIdentity(s[p.len..], args, describe, p.count);
      assert s == s[..p.len] + s[p.len..];
    }
  }

  // ------------------------------------------- placeholders and comments as read

  lemma {:induction false} DigitsRead(digits: string, rest: string)
    requires AllDigits(digits) && (rest == "" || !IsDigit(rest[0]))
    ensures DigitsLength(digits + rest) == |digits|
    decreases |digits|
  {
    if digits == "" {
      assert digits + rest == rest;
    } else {
      AppendTail(digits, rest);
      DigitsRead(digits[1..], rest);
    }
  }

  /** `$` and digits are a placeholder exactly from 1 to 65535, whatever follows;
      leading zeros do not matter. */
  lemma DollarNumbersRead(digits: string, rest: string, count: nat)
    requires digits != "" && AllDigits(digits) && (rest == "" || !IsDigit(rest[0]))
    ensures ParamNumber("$" + (digits + rest), Postgres, count).Ok? <==> 1 <= NatValue(digits) <= 65535
    ensures 1 <= NatValue(digits) <= 65535 ==>
              ParamNumber("$" + (digits + rest), Postgres, count) == Ok((NatValue(digits), |digits| + 1))
  {
    hide DigitsLength, DollarNumber, ParseInt, NatValue;
    var s := "$" + (digits + rest);
    assert s[1..] == digits + rest;
    DigitsRead(digits, rest);
    NumberRead(digits + rest, digits);
  }

  lemma NumberRead(s: string, digits: string)
    requires digits != "" && AllDigits(digits) && digits <= s && DigitsLength(s) == |digits|
    ensures DollarNumber(s) == if 1 <= NatValue(digits) <= 65535 then Some((NatValue(digits), |digits|)) else None
  {
    hide DigitsLength, ParseInt, NatValue;
    assert s[..|digits|] == digits;
    DigitsParse(digits);
  }

  lemma DigitsParse(digits: string)
    requires digits != "" && AllDigits(digits)
    ensures ParseInt(digits, 64) == if FitsBits(NatValue(digits), 64) then Some(NatValue(digits)) else None
    ensures NatValue(digits) <= 65535 ==> FitsBits(NatValue(digits), 64)
  {
    hide NatValue;
    assert digits[0] != '+' && digits[0] != '-';
  }

  lemma PairUnfold(s: string, a: char, b: char)
    requires |s| >= 2
    ensures s[0] == a && s[1] == b ==> IndexPair(s, a, b) == Some(0)
    ensures !(s[0] == a && s[1] == b) && IndexPair(s[1..], a, b).Some? ==>
              IndexPair(s, a, b) == Some(IndexPair(s[1..], a, b).value + 1)
  {
  }

  lemma {:induction false} PairFound(x: string, a: char, b: char, rest: string)
    requires a != b && forall k :: 0 <= k < |x| - 1 ==> !(x[k] == a && x[k + 1] == b)
    ensures IndexPair(x + ([a, b] + rest), a, b) == Some(|x|)
    decreases |x|
  {
    hide IndexPair;
    var tail := [a, b] + rest;
    PairUnfold(x + tail, a, b);
    if x == "" {
      assert x + tail == tail;
    } else {
      AppendTail(x, tail);
      assert (x + tail)[1] == if |x| > 1 then x[1] else a;
      forall k | 0 <= k < |x[1..]| - 1 ensures !(x[1..][k] == a && x[1..][k + 1] == b) {
        assert x[1..][k] == x[k + 1] && x[1..][k + 1] == x[k + 1 + 1];
      }
      PairFound(x[1..], a, b, rest);
    }
  }

  lemma {:induction false} ByteFound(x: string, c: char, rest: string)
    requires c !in x
    ensures IndexByte(x + ([c] + rest), c) == Some(|x|)
    decreases |x|
  {
    if x == "" {
      assert x + ([c] + rest) == [c] + rest;
    } else {
      AppendTail(x, [c] + rest);
      assert x[0] in x && forall d :: d in x[1..] ==> d in x;
      ByteFound(x[1..], c, rest);
    }
  }

  /** Comments are copied up to their end, placeholders in them included. */
  lemma BlockCommentCopied(x: string, rest: string, d: Dialect, args: seq<Arg>, describe: bool, count: nat)
    requires forall k :: 0 <= k < |x| - 1 ==> !(x[k] == '*' && x[k + 1] == '/')
    ensures var c := ['/', '*'] + x + ['*', '/'];
            Bind(c + rest, d, args, describe, count) == Prepend(c, Bind(rest, d, args, describe, count))
  {
    hide Bind, IndexPair;
    var c := ['/', '*'] + x + ['*', '/'];
    var s := c + rest;
    PairFound(x, '*', '/', rest);
    assert s[2..] == x + (['*', '/'] + rest);
    DropPrefix(c, rest);
    assert s[0] == '/' && s[1] == '*';
    BindUnfold(s, d, args, describe, count);
  }

  lemma LineCommentCopied(x: string, rest: string, d: Dialect, args: seq<Arg>, describe: bool, count: nat)
    requires '\n' !in x
    ensures var c := ['-', '-'] + x + ['\n'];
            Bind(c + rest, d, args, describe, count) == Prepend(c, Bind(rest, d, args, describe, count))
  {
    hide Bind, IndexByte;
    var c := ['-', '-'] + x + ['\n'];
    var s := c + rest;
    ByteFound(['-', '-'] + x, '\n', rest);
    assert s == (['-', '-'] + x) + (['\n'] + rest);
    DropPrefix(c, rest);
    assert s[0] == '-' && s[1] == '-';
    BindUnfold(s, d, args, describe, count);
  }
}
