/** What a query is described as: the text it is bound to with 0 for every
    placeholder. */
module DescribeZeros {
  import opened Prelude
  import opened Literals
  import opened Lexer
  import opened Binder
  import opened BinderTokens

  function Zeros(n: nat): (args: seq<Arg>)
    ensures |args| == n && forall k :: 0 <= k < n ==> args[k] == IntArg(0)
  {
    seq(n, _ => IntArg(0))
  }

  lemma ZeroText()
    ensures NatText(0) == "0"
  {
    assert NatText(0) == [Digit(0)] && Digit(0) == '0';
  }

  lemma StepAsZero(s: string, d: Dialect, args: seq<Arg>, n: nat, count: nat)
    requires s != ""
    ensures var probe, value := BindStep(s, d, args, true, count), BindStep(s, d, Zeros(n), false, count);
            && (value.Ok? ==> probe == value)
            && (probe.Ok? && probe.value.count <= n ==> value == probe)
  {
    hide QuotedPiece, CommentPiece, ParamNumber, NatText;
    ZeroText();
  }

  lemma {:induction false} BindAsZeros(s: string, d: Dialect, args: seq<Arg>, n: nat, count: nat)
    ensures var probe, value := Bind(s, d, args, true, count), Bind(s, d, Zeros(n), false, count);
            && (value.Ok? ==> probe == value)
            && (probe.Ok? ==> count <= probe.value.count)
            && (probe.Ok? && probe.value.count <= n ==> value == probe)
    decreases |s|
  {
    hide Bind, BindStep;
    BindUnfold(s, d, args, true, count);
    BindUnfold(s, d, Zeros(n), false, count);
    if s != "" {
      StepAsZero(s, d, args, n, count);
      var probe := BindStep(s, d, args, true, count);
      if probe.Ok? { BindAsZeros(s[probe.value.len..], d, args, n, probe.value.count); }
    }
  }

  /** Describing binds as executing with zeros does: with n zeros a query binds
      exactly if it is described with n parameters, and then to the same text. */
  lemma DescribesAsZeros(q: string, d: Dialect, args: seq<Arg>, n: nat)
    ensures (BindSql(q, d, Zeros(n), false).Ok?
             <==> BindSql(q, d, args, true).Ok? && BindSql(q, d, args, true).value.count == n)
    ensures BindSql(q, d, Zeros(n), false).Ok? ==> BindSql(q, d, args, true) == BindSql(q, d, Zeros(n), false)
  {
    hide Bind;
    BindAsZeros(q, d, args, n, 0);
  }

  /** The tokens of a query with a zero in place of every placeholder. */
  function ZeroTokens(ls: seq<Lexeme>): seq<Token> {
    if ls == [] then [] else [if ls[0].token.Param? then Word("0") else ls[0].token] + ZeroTokens(ls[1..])
  }

  lemma {:induction false} ZeroImages(ls: seq<Lexeme>, n: nat)
    requires AllReady(ls, Zeros(n))
    ensures Expand(ls, Zeros(n)) == ZeroTokens(ls)
  {
    hide NatText;
    ZeroText();
    if ls != [] { ZeroImages(ls[1..], n); }
  }

  /** Lexed as MySQL, the description of a query has its tokens with `0` for every
      placeholder, under the condition that they are kept with arguments. */
  lemma DescribedTokens(q: string, d: Dialect, args: seq<Arg>)
    requires BindSql(q, d, args, true).Ok?
    requires d == MySql ==> Lex(q, Query(d), 0).Some? && Legible(Lex(q, Query(d), 0).value, d)
    ensures Lex(q, Query(d), 0).Some?
    ensures var ls, b := Lex(q, Query(d), 0).value, BindSql(q, d, args, true).value;
            && AllReady(ls, Zeros(b.count))
            && (BoundTokens(b.text) == Some(ZeroTokens(ls)) <==> Legible(ls, d) && Delimited(ls, d, Zeros(b.count)))
  {
    hide BindSql, Lex, BoundTokens, Legible, Delimited, AllReady;
    var n := BindSql(q, d, args, true).value.count;
    DescribesAsZeros(q, d, args, n);
    BindingPreservesTokens(q, d, Zeros(n));
    ZeroImages(Lex(q, Query(d), 0).value, n);
  }
}
