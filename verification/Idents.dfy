/** Identifiers of letters, digits and underscores, and their maximal runs. */
module Idents {
  import opened Prelude

  predicate IdentStart(c: char) {
    IsLetter(c) || c == '_'
  }

  predicate IdentChar(c: char) {
    IsLetter(c) || IsDigit(c) || c == '_'
  }

  function IdentLength(s: string): (n: nat)
    ensures n <= |s|
    ensures forall k :: 0 <= k < n ==> IdentChar(s[k])
    ensures n < |s| ==> !IdentChar(s[n])
  {
    if s != "" && IdentChar(s[0]) then 1 + IdentLength(s[1..]) else 0
  }

  lemma IdentUnfold(s: string)
    ensures IdentLength(s) == if s != "" && IdentChar(s[0]) then 1 + IdentLength(s[1..]) else 0
  {
  }

  lemma {:induction false} IdentAppend(x: string, rest: string)
    requires IdentLength(x) == |x|
    requires rest == "" || !IdentChar(rest[0])
    ensures IdentLength(x + rest) == |x|
    decreases |x|
  {
    hide IdentLength;
    IdentUnfold(x);
    IdentUnfold(x + rest);
    if x == "" {
      assert x + rest == rest;
    } else {
      AppendTail(x, rest);
      IdentAppend(x[1..], rest);
    }
  }

  lemma {:induction false} IdentCut(s: string)
    ensures IdentLength(s[..IdentLength(s)]) == IdentLength(s)
    decreases |s|
  {
    hide IdentLength;
    IdentUnfold(s);
    IdentUnfold(s[..IdentLength(s)]);
    if s != "" && IdentChar(s[0]) {
      IdentCut(s[1..]);
      assert s[..IdentLength(s)][1..] == s[1..][..IdentLength(s[1..])];
    }
  }

  lemma WordRun(x: string)
    requires forall k :: 0 <= k < |x| ==> IdentChar(x[k])
    ensures IdentLength(x) == |x|
  {
  }

  lemma {:induction false} IdentAtLeast(s: string, n: nat)
    requires n <= |s| && forall k :: 0 <= k < n ==> IdentChar(s[k])
    ensures IdentLength(s) >= n
  {
    hide IdentLength;
  }
}
