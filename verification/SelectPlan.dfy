/** `planSelect`: which SELECTs are accepted, and what their plan means. */
module SelectPlan {
  import opened Prelude
  import opened SqlAst
  import opened FilterText
  import opened FilterGrammar
  import opened FilterRoundTrip

  // ------------------------------------------------------------ extractVector

  /** What is left of a WHERE clause once its vector predicate is taken out. The
      source marks "no vector predicate" by an empty field name. */
  datatype Split = Split(scalar: Option<Expr>, field: string, vector: Option<Expr>)

  predicate IsVectorCall(e: Expr) {
    e.Func? && EqualFold(e.name, "json_vector")
  }

  function ExtractVector(e: Expr): Result<Split> {
    match e
    case Paren(x) =>
      (match ExtractVector(x)
       case Err(m) => Err(m)
       case Ok(s) => Ok(if s.scalar.None? then s else s.(scalar := Some(Paren(s.scalar.value)))))
    case And(l, r) => JoinSplits(ExtractVector(l), ExtractVector(r))
    case Compare(op, l, r, escape) =>
      if op == "like" && IsVectorCall(r) then
        if !l.Column? || l.qualifier != "" || escape.Some? then Err("invalid vector predicate")
        else Ok(Split(None, l.name, Some(r)))
      else Ok(Split(Some(e), "", None))
    case _ => Ok(Split(Some(e), "", None))
  }

  function JoinSplits(l: Result<Split>, r: Result<Split>): Result<Split> {
    match l
    case Err(m) => Err(m)
    case Ok(a) =>
      match r
      case Err(m) => Err(m)
      case Ok(b) =>
        if a.field != "" && b.field != "" then Err("only one vector predicate is supported")
        else
          var v := if b.field != "" then b else a;
          var scalar :=
            if a.scalar.None? then b.scalar
            else if b.scalar.None? then a.scalar
            else Some(And(a.scalar.value, b.scalar.value));
          Ok(Split(scalar, v.field, v.vector))
  }

  // ---------------------------------------------------------------- meanings

  datatype Value = TextValue(s: string) | BoolValue(b: bool) | NumberValue(id: int)

  /** Everything the two languages share and neither side interprets: rows,
      numerals, comparisons, LIKE and nearest-neighbour search. */
  datatype World = World(
    row: string -> Value,
    number: string -> Value,
    signed: (string, Value) -> Value,
    compare: (Operator, Value, Value) -> bool,
    like: (Value, Value) -> bool,
    ann: (string, Expr) -> bool,
    other: Expr -> bool,
    otherValue: Expr -> Value)

  function SqlNumber(t: string, w: World): Value {
    if HasPrefix(t, "-") then w.signed("-", w.number(t[1..])) else w.number(t)
  }

  function SqlValue(e: Expr, w: World): Value {
    match e
    case Column(_, name) => w.row(name)
    case Literal(kind, text) => if kind == StrVal then TextValue(text) else SqlNumber(text, w)
    case BoolLit(b) => BoolValue(b)
    case Unary(op, operand) => w.signed(op, SqlValue(operand, w))
    case _ => w.otherValue(e)
  }

  predicate SqlIn(v: Value, items: seq<Expr>, w: World) {
    exists k :: 0 <= k < |items| && w.compare(Eq, v, SqlValue(items[k], w))
  }

  /** The truth of a WHERE expression in SQL. */
  predicate SqlHolds(e: Expr, w: World) {
    match e
    case And(l, r) => SqlHolds(l, w) && SqlHolds(r, w)
    case Or(l, r) => SqlHolds(l, w) || SqlHolds(r, w)
    case Not(x) => !SqlHolds(x, w)
    case Paren(x) => SqlHolds(x, w)
    case Compare(op, l, r, _) =>
      if op == "like" && IsVectorCall(r) then w.ann(if l.Column? then l.name else "", r)
      else if op == "like" then w.like(SqlValue(l, w), SqlValue(r, w))
      else if op == "in" then r.Tuple? && SqlIn(SqlValue(l, w), r.items, w)
      else if op == "not in" then !(r.Tuple? && SqlIn(SqlValue(l, w), r.items, w))
      else if IsComparison(op) then w.compare(SqlOperator(op), SqlValue(l, w), SqlValue(r, w))
      else w.other(e)
    case _ => w.other(e)
  }

  function SqlOperator(op: string): Operator {
    if op == "=" then Eq
    else if op == "<" then Lt
    else if op == "<=" then Le
    else if op == ">" then Gt
    else if op == ">=" then Ge
    else Ne
  }

  function OperandValue(o: Operand, w: World): Value {
    match o
    case Field(name) => w.row(name)
    case Num(sign, text) => if sign == "" then w.number(text) else w.signed(sign, w.number(text))
    case Str(value) => TextValue(value)
    case Bool(b) => BoolValue(b)
  }

  predicate FilterIn(v: Value, items: seq<Operand>, w: World) {
    exists k :: 0 <= k < |items| && w.compare(Eq, v, OperandValue(items[k], w))
  }

  /** The truth of a parsed Milvus filter. */
  predicate FilterHolds(f: Filter, w: World) {
    match f
    case FAnd(l, r) => FilterHolds(l, w) && FilterHolds(r, w)
    case FOr(l, r) => FilterHolds(l, w) || FilterHolds(r, w)
    case FNot(x) => !FilterHolds(x, w)
    case FCompare(op, l, r) => w.compare(op, OperandValue(l, w), OperandValue(r, w))
    case FLike(l, r) => w.like(OperandValue(l, w), OperandValue(r, w))
    case FIn(l, items, negated) => FilterIn(OperandValue(l, w), items, w) != negated
  }

  lemma OperandMeans(e: Expr, printable: char -> bool, w: World)
    requires FilterValue(e, printable).Ok? && WellFormedOperand(e)
    ensures OperandValue(OperandOf(e), w) == SqlValue(e, w)
  {
    hide Quote, NumberLength;
    if e.Unary? && HasPrefix(e.operand.text, "-") { MinusIsNoNumeral(e.operand.text); }
  }

  lemma {:induction false} ItemsMean(items: seq<Expr>, printable: char -> bool, w: World)
    requires ListItems(items, printable).Ok?
    requires forall k :: 0 <= k < |items| ==> WellFormedOperand(items[k])
    ensures forall k :: 0 <= k < |items| ==> OperandValue(OperandsOf(items)[k], w) == SqlValue(items[k], w)
  {
    hide FilterValue, WellFormedOperand, OperandOf, OperandValue, SqlValue;
    if items != [] {
      OperandMeans(items[0], printable, w);
      ItemsMean(items[1..], printable, w);
    }
  }

  /** Exactly the compilable scalar predicates are compiled, and compiling keeps their
      meaning on every row. */
  lemma FilterMeans(e: Expr, printable: char -> bool, w: World)
    requires WellFormed(e)
    ensures ScalarFilter(e, printable).Ok? <==> Compilable(e)
    ensures Compilable(e) ==> FilterHolds(FilterOf(e), w) == SqlHolds(e, w)
  {
    CompilesExactly(e, printable);
    if Compilable(e) { CompiledMeans(e, printable, w); }
  }

  lemma {:induction false} CompiledMeans(e: Expr, printable: char -> bool, w: World)
    requires ScalarFilter(e, printable).Ok? && WellFormed(e)
    ensures FilterHolds(FilterOf(e), w) == SqlHolds(e, w)
  {
    hide FilterValue, WellFormedOperand, OperandOf, OperandValue, SqlValue, ListItems, EqualFold;
    match e
    case And(l, r) =>
      CompiledMeans(l, printable, w);
      CompiledMeans(r, printable, w);
    case Or(l, r) =>
      CompiledMeans(l, printable, w);
      CompiledMeans(r, printable, w);
    case Not(x) => CompiledMeans(x, printable, w);
    case Paren(x) => CompiledMeans(x, printable, w);
    case Compare(op, l, r, _) =>
      OperandMeans(l, printable, w);
      if op == "in" || op == "not in" {
        ItemsMean(r.items, printable, w);
      } else {
        OperandMeans(r, printable, w);
      }
  }

  /** Column names the parser produces are never empty. */
  predicate NamedVectors(e: Expr) {
    match e
    case And(l, r) => NamedVectors(l) && NamedVectors(r)
    case Paren(x) => NamedVectors(x)
    case Compare(op, l, r, _) => op == "like" && IsVectorCall(r) && l.Column? ==> l.name != ""
    case _ => true
  }

  predicate VectorHolds(s: Split, w: World) {
    s.vector.Some? ==> w.ann(s.field, s.vector.value)
  }

  predicate ScalarHolds(s: Split, w: World) {
    s.scalar.Some? ==> SqlHolds(s.scalar.value, w)
  }

  /** Taking the vector predicate out of the WHERE clause keeps its meaning, and
      leaves a well-formed scalar part. */
  lemma {:induction false} ExtractMeans(e: Expr, w: World)
    requires ExtractVector(e).Ok? && NamedVectors(e)
    ensures var s := ExtractVector(e).value;
            && SqlHolds(e, w) == (VectorHolds(s, w) && ScalarHolds(s, w))
            && (s.field == "" <==> s.vector.None?)
            && (WellFormed(e) && s.scalar.Some? ==> WellFormed(s.scalar.value))
  {
    hide EqualFold, SqlValue, SqlIn, WellFormedOperand;
    match e
    case And(l, r) =>
      ExtractMeans(l, w);
      ExtractMeans(r, w);
    case Paren(x) => ExtractMeans(x, w);
    case Compare(_, _, _, _) =>
    case _ =>
  }

  /** A vector predicate anywhere in a condition. */
  predicate HasVector(e: Expr) {
    match e
    case And(l, r) => HasVector(l) || HasVector(r)
    case Or(l, r) => HasVector(l) || HasVector(r)
    case Not(x) => HasVector(x)
    case Paren(x) => HasVector(x)
    case Compare(op, _, r, _) => op == "like" && IsVectorCall(r)
    case _ => false
  }

  /** Only a conjunct can be a vector predicate: what is left after extraction is
      refused if one is under OR or NOT, so none is ever taken for a scalar. */
  lemma {:induction false} NestedVectorRejected(e: Expr, printable: char -> bool)
    requires HasVector(e)
    ensures ScalarFilter(e, printable).Err?
  {
    hide FilterValue, FilterIn, EqualFold, FilterOperator, IsComparison;
    match e
    case And(l, r) => if HasVector(l) { NestedVectorRejected(l, printable); } else { NestedVectorRejected(r, printable); }
    case Or(l, r) => if HasVector(l) { NestedVectorRejected(l, printable); } else { NestedVectorRejected(r, printable); }
    case Not(x) => NestedVectorRejected(x, printable);
    case Paren(x) => NestedVectorRejected(x, printable);
    case Compare(_, _, _, _) =>
  }

  // ------------------------------------------- what a WHERE clause is split into

  /** The conditions a WHERE clause joins with AND, in order. */
  function Conjuncts(e: Expr): (cs: seq<Expr>)
    ensures cs != []
  {
    match e
    case And(l, r) => Conjuncts(l) + Conjuncts(r)
    case Paren(x) => Conjuncts(x)
    case _ => [e]
  }

  predicate IsVectorPredicate(e: Expr) {
    e.Compare? && e.op == "like" && e.right.Func? && EqualFold(e.right.name, "json_vector")
  }

  /** An unqualified column on the left, and no ESCAPE. */
  predicate GoodVector(e: Expr) {
    e.Compare? && e.left.Column? && e.left.qualifier == "" && e.escape.None?
  }

  /** The conditions on scalars, and the vector predicates on a named column. */
  function Scalars(cs: seq<Expr>): seq<Expr> {
    if cs == [] then [] else ScalarOf(cs[0]) + Scalars(cs[1..])
  }

  function ScalarOf(e: Expr): seq<Expr> {
    if IsVectorPredicate(e) then [] else [e]
  }

  function Vectors(cs: seq<Expr>): (vs: seq<Expr>)
    ensures forall k :: 0 <= k < |vs| ==> vs[k].Compare? && vs[k].left.Column? && vs[k].left.name != ""
  {
    if cs == [] then [] else VectorOf(cs[0]) + Vectors(cs[1..])
  }

  function VectorOf(e: Expr): seq<Expr> {
    if IsVectorPredicate(e) && e.left.Column? && e.left.name != "" then [e] else []
  }

  lemma {:induction false} ConjunctsAppend(a: seq<Expr>, b: seq<Expr>)
    ensures Scalars(a + b) == Scalars(a) + Scalars(b) && Vectors(a + b) == Vectors(a) + Vectors(b)
  {
    hide ScalarOf, VectorOf;
    if a == [] {
      assert a + b == b;
    } else {
      AppendTail(a, b);
      ConjunctsAppend(a[1..], b);
      Assoc(ScalarOf(a[0]), Scalars(a[1..]), Scalars(b));
      Assoc(VectorOf(a[0]), Vectors(a[1..]), Vectors(b));
    }
  }

  predicate GoodVectors(cs: seq<Expr>) {
    forall k :: 0 <= k < |cs| && IsVectorPredicate(cs[k]) ==> GoodVector(cs[k])
  }

  lemma GoodAppend(a: seq<Expr>, b: seq<Expr>)
    ensures GoodVectors(a + b) <==> GoodVectors(a) && GoodVectors(b)
  {
    hide IsVectorPredicate, GoodVector;
    assert forall k :: 0 <= k < |b| ==> (a + b)[|a| + k] == b[k];
    assert forall k :: 0 <= k < |a| ==> (a + b)[k] == a[k];
    assert forall k :: |a| <= k < |a + b| ==> (a + b)[k] == b[k - |a|];
  }

  /** `s` is what is left of the conjuncts `cs` and their vector predicate. */
  predicate SplitOf(s: Split, cs: seq<Expr>) {
    && (s.scalar.None? <==> Scalars(cs) == [])
    && (s.scalar.Some? ==> Conjuncts(s.scalar.value) == Scalars(cs))
    && (if Vectors(cs) == [] then s.field == ""
        else s.field == Vectors(cs)[0].left.name && s.vector == Some(Vectors(cs)[0].right))
  }

  /** A WHERE clause is split exactly if its vector predicates are well formed and at
      most one has a column name; then nothing but the vector predicates is taken
      out of its conjuncts. */
  lemma {:induction false} ExtractsExactly(e: Expr)
    ensures ExtractVector(e).Ok? <==> GoodVectors(Conjuncts(e)) && |Vectors(Conjuncts(e))| <= 1
    ensures ExtractVector(e).Ok? ==> SplitOf(ExtractVector(e).value, Conjuncts(e))
  {
    hide EqualFold, Scalars, Vectors, GoodVectors, SplitOf, JoinSplits;
    match e
    case And(l, r) =>
      ExtractsExactly(l);
      ExtractsExactly(r);
      JoinsExactly(ExtractVector(l), ExtractVector(r), Conjuncts(l), Conjuncts(r));
    case Paren(x) =>
      ExtractsExactly(x);
      if ExtractVector(x).Ok? { ParenSplit(ExtractVector(x).value, Conjuncts(x)); }
    case _ => OneConjunct(e);
  }

  lemma ParenSplit(s: Split, cs: seq<Expr>)
    requires SplitOf(s, cs)
    ensures s.scalar.Some? ==> SplitOf(s.(scalar := Some(Paren(s.scalar.value))), cs)
  {
    hide Scalars, Vectors;
  }

  lemma JoinsExactly(l: Result<Split>, r: Result<Split>, a: seq<Expr>, b: seq<Expr>)
    requires l.Ok? <==> GoodVectors(a) && |Vectors(a)| <= 1
    requires r.Ok? <==> GoodVectors(b) && |Vectors(b)| <= 1
    requires (l.Ok? ==> SplitOf(l.value, a)) && (r.Ok? ==> SplitOf(r.value, b))
    ensures JoinSplits(l, r).Ok? <==> GoodVectors(a + b) && |Vectors(a + b)| <= 1
    ensures JoinSplits(l, r).Ok? ==> SplitOf(JoinSplits(l, r).value, a + b)
  {
    hide Scalars, Vectors, GoodVectors;
    ConjunctsAppend(a, b);
    GoodAppend(a, b);
    if l.Ok? && r.Ok? {
      assert Scalars(a) + [] == Scalars(a) && [] + Scalars(b) == Scalars(b);
      assert Vectors(a) + [] == Vectors(a) && [] + Vectors(b) == Vectors(b);
    }
  }

  lemma OneConjunct(e: Expr)
    requires !e.And? && !e.Paren?
    ensures ExtractVector(e).Ok? <==> GoodVectors([e]) && |Vectors([e])| <= 1
    ensures ExtractVector(e).Ok? ==> SplitOf(ExtractVector(e).value, [e])
  {
    hide EqualFold;
    assert [e][1..] == [];
    assert Scalars([e]) == ScalarOf(e) + Scalars([]) && Vectors([e]) == VectorOf(e) + Vectors([]);
    assert GoodVectors([e]) ==> (IsVectorPredicate([e][0]) ==> GoodVector([e][0]));
  }

  predicate AllCompilable(cs: seq<Expr>) {
    forall k :: 0 <= k < |cs| ==> Compilable(cs[k])
  }

  lemma AllAppend(a: seq<Expr>, b: seq<Expr>)
    ensures AllCompilable(a + b) <==> AllCompilable(a) && AllCompilable(b)
  {
    hide Compilable;
    assert forall k :: 0 <= k < |b| ==> (a + b)[|a| + k] == b[k];
    assert forall k :: 0 <= k < |a| ==> (a + b)[k] == a[k];
    assert forall k :: |a| <= k < |a + b| ==> (a + b)[k] == b[k - |a|];
  }

  lemma AllOne(e: Expr)
    ensures AllCompilable([e]) <==> Compilable(e)
  {
    hide Compilable;
    assert [e][0] == e;
  }

  lemma {:induction false} CompilableConjuncts(e: Expr)
    ensures Compilable(e) <==> AllCompilable(Conjuncts(e))
  {
    hide Compilable, AllCompilable;
    CompilableUnfold(e);
    match e
    case And(l, r) =>
      CompilableConjuncts(l);
      CompilableConjuncts(r);
      AllAppend(Conjuncts(l), Conjuncts(r));
    case Paren(x) => CompilableConjuncts(x);
    case _ => AllOne(e);
  }

  lemma CompilableUnfold(e: Expr)
    ensures e.And? ==> (Compilable(e) <==> Compilable(e.left) && Compilable(e.right))
    ensures e.Paren? ==> (Compilable(e) <==> Compilable(e.expr))
  {
  }

  /** Every condition is a filter or a vector predicate, of which there is one. */
  predicate WherePlannable(e: Expr) {
    && GoodVectors(Conjuncts(e)) && |Vectors(Conjuncts(e))| <= 1
    && forall k :: 0 <= k < |Conjuncts(e)| && !IsVectorPredicate(Conjuncts(e)[k]) ==> Compilable(Conjuncts(e)[k])
  }

  lemma {:induction false} ScalarsCompilable(cs: seq<Expr>)
    ensures (AllCompilable(Scalars(cs))
             <==> forall k :: 0 <= k < |cs| && !IsVectorPredicate(cs[k]) ==> Compilable(cs[k]))
  {
    hide IsVectorPredicate, Compilable, AllCompilable;
    if cs == [] {
      NoneCompilable();
    } else {
      ScalarsCompilable(cs[1..]);
      AllAppend([cs[0]], Scalars(cs[1..]));
      AllOne(cs[0]);
      assert [] + Scalars(cs[1..]) == Scalars(cs[1..]);
      assert Scalars(cs) == ScalarOf(cs[0]) + Scalars(cs[1..]);
      assert forall k :: 1 <= k < |cs| ==> cs[k] == cs[1..][k - 1];
      assert forall k :: 0 <= k < |cs[1..]| ==> cs[1..][k] == cs[k + 1];
    }
  }

  lemma NoneCompilable()
    ensures AllCompilable([])
  {
  }

  lemma WhereAccepted(e: Expr, printable: char -> bool)
    ensures PlanWhere(Some(e), printable).Ok? <==> WherePlannable(e)
    ensures PlanWhere(Some(e), printable).Ok? ==> ExtractVector(e).Ok? && SplitOf(ExtractVector(e).value, Conjuncts(e))
  {
    hide ScalarFilter, Compilable, AllCompilable, IsVectorPredicate, GoodVectors, Conjuncts, Scalars, Vectors;
    ExtractsExactly(e);
    ScalarsCompilable(Conjuncts(e));
    NoneCompilable();
    if ExtractVector(e).Ok? && ExtractVector(e).value.scalar.Some? {
      CompilesExactly(ExtractVector(e).value.scalar.value, printable);
      CompilableConjuncts(ExtractVector(e).value.scalar.value);
    }
  }

  // -------------------------------------------------------------- planSelect

  const MAX_WINDOW: int := 16384

  datatype Plan = Plan(
    table: string, filter: string, vectorField: string, vectorExpr: Option<Expr>, limit: int, offset: int)

  /** int64 addition. */
  function Add64(a: int, b: int): int {
    var n := (a + b) % 0x1_0000_0000_0000_0000;
    if n < 0x8000_0000_0000_0000 then n else n - 0x1_0000_0000_0000_0000
  }

  function SelectInteger(e: Expr): (r: Result<int>)
    ensures r.Ok? ==> 0 <= r.value < 0x8000_0000_0000_0000
  {
    if !(e.Literal? && e.kind == IntVal) then Err("LIMIT and OFFSET must be non-negative integer literals")
    else match ParseInt(e.text, 64)
      case None => Err("invalid LIMIT or OFFSET")
      case Some(n) => if n < 0 then Err("invalid LIMIT or OFFSET") else Ok(n)
  }

  function PlanTable(s: Select): Result<string> {
    if s.distinct || s.groupBy || s.having || s.orderBy || s.locking then
      Err("DISTINCT, GROUP BY, HAVING, ORDER BY and locking are not supported")
    else if |s.from| != 1 then Err("SELECT requires one collection")
    else if !s.from[0].Aliased? then Err("joins are not supported")
    else
      var a := s.from[0];
      if !a.expr.TableName? || a.alias != "" || a.hints || a.expr.qualifier != "" then
        Err("subqueries, table aliases, hints and qualified tables are not supported")
      else Ok(a.expr.name)
  }

  /** Why a projection is refused, if it is; `alone` when it is the only one. */
  function ProjectionError(e: SelectExpr, alone: bool): Option<string> {
    match e
    case Star(table) =>
      if !alone || table != "" then Some("only an unqualified standalone * is supported") else None
    case OtherSelect => Some("projection aliases are not supported")
    case Projection(x, alias) =>
      if alias != "" then Some("projection aliases are not supported")
      else if IsCountStar(x) && alone then None
      else if !x.Column? || x.qualifier != "" then Some("projection must be an unqualified field")
      else None
  }

  function FirstError(es: seq<SelectExpr>, alone: bool): Option<string> {
    if es == [] then None
    else if ProjectionError(es[0], alone).Some? then ProjectionError(es[0], alone)
    else FirstError(es[1..], alone)
  }

  function PlanWhere(where: Option<Expr>, printable: char -> bool): Result<Plan> {
    var empty := Plan("", "", "", None, 100, 0);
    match where
    case None => Ok(empty)
    case Some(e) =>
      match ExtractVector(e)
      case Err(m) => Err(m)
      case Ok(split) =>
        var p := empty.(vectorField := split.field, vectorExpr := split.vector);
        match split.scalar
        case None => Ok(p)
        case Some(x) => match ScalarFilter(x, printable) case Err(m) => Err(m) case Ok(f) => Ok(p.(filter := f))
  }

  function PlanLimit(limit: Option<Limit>): Result<(int, int)> {
    match limit
    case None => Ok((100, 0))
    case Some(l) =>
      match SelectInteger(l.rowcount)
      case Err(m) => Err(m)
      case Ok(n) =>
        match l.offset
        case None => Ok((n, 0))
        case Some(o) => match SelectInteger(o) case Err(m) => Err(m) case Ok(k) => Ok((n, k))
  }

  predicate WindowTooLarge(limit: int, offset: int) {
    limit > MAX_WINDOW || offset > MAX_WINDOW || Add64(limit, offset) > MAX_WINDOW
  }

  function PlanSelect(s: Select, printable: char -> bool): Result<Plan> {
    match PlanTable(s)
    case Err(m) => Err(m)
    case Ok(table) =>
      if FirstError(s.exprs, |s.exprs| == 1).Some? then Err(FirstError(s.exprs, |s.exprs| == 1).value)
      else match PlanWhere(s.where, printable)
        case Err(m) => Err(m)
        case Ok(p) =>
          match PlanLimit(s.limit)
          case Err(m) => Err(m)
          case Ok((limit, offset)) =>
            if WindowTooLarge(limit, offset) then Err("LIMIT + OFFSET must not exceed 16384")
            else Ok(p.(table := table, limit := limit, offset := offset))
  }

  method CheckProjections(exprs: seq<SelectExpr>) returns (r: Option<string>)
    ensures r == FirstError(exprs, |exprs| == 1)
  {
    assert exprs[0..] == exprs;
    for k := 0 to |exprs|
      invariant FirstError(exprs, |exprs| == 1) == FirstError(exprs[k..], |exprs| == 1)
    {
      assert exprs[k..][1..] == exprs[k + 1..];
      var e := exprs[k];
      if e.Star? {
        if |exprs| != 1 || e.table != "" {
          return Some("only an unqualified standalone * is supported");
        }
        continue;
      }
      if !e.Projection? || e.alias != "" {
        return Some("projection aliases are not supported");
      }
      if IsCountStar(e.expr) && |exprs| == 1 {
        continue;
      }
      if !e.expr.Column? || e.expr.qualifier != "" {
        return Some("projection must be an unqualified field");
      }
    }
    return None;
  }

  method PlanSelectLoop(s: Select, printable: char -> bool) returns (r: Result<Plan>)
    ensures r == PlanSelect(s, printable)
    ensures r.Ok? <==> Plannable(s)
  {
    hide ScalarFilter, ExtractVector, SelectInteger, Add64, FirstError, Plannable, PlanOf;
    PlansExactly(s, printable);
    var p := Plan("", "", "", None, 100, 0);
    var table := PlanTable(s);
    if table.Err? {
      return Err(table.reason);
    }
    p := p.(table := table.value);
    var refused := CheckProjections(s.exprs);
    if refused.Some? {
      return Err(refused.value);
    }
    if s.where.Some? {
      var split := ExtractVector(s.where.value);
      if split.Err? {
        return Err(split.reason);
      }
      p := p.(vectorField := split.value.field, vectorExpr := split.value.vector);
      if split.value.scalar.Some? {
        var f := ScalarFilter(split.value.scalar.value, printable);
        if f.Err? {
          return Err(f.reason);
        }
        p := p.(filter := f.value);
      }
    }
    if s.limit.Some? {
      var n := SelectInteger(s.limit.value.rowcount);
      if n.Err? {
        return Err(n.reason);
      }
      p := p.(limit := n.value);
      if s.limit.value.offset.Some? {
        var k := SelectInteger(s.limit.value.offset.value);
        if k.Err? {
          return Err(k.reason);
        }
        p := p.(offset := k.value);
      }
    }
    if p.limit > MAX_WINDOW || p.offset > MAX_WINDOW || Add64(p.limit, p.offset) > MAX_WINDOW {
      return Err("LIMIT + OFFSET must not exceed 16384");
    }
    return Ok(p);
  }

  /** One unqualified table, without alias or hints. */
  predicate PlainTable(from: seq<TableExpr>) {
    && |from| == 1 && from[0].Aliased? && from[0].alias == "" && !from[0].hints
    && from[0].expr.TableName? && from[0].expr.qualifier == ""
  }

  /** `*` or `count(*)` alone, or unqualified columns; no aliases. */
  predicate PlainProjection(exprs: seq<SelectExpr>) {
    || (|exprs| == 1 && exprs[0] == Star(""))
    || (|exprs| == 1 && exprs[0].Projection? && exprs[0].alias == "" && IsCountStar(exprs[0].expr))
    || forall k :: 0 <= k < |exprs| ==> PlainColumn(exprs[k])
  }

  /** `e` is the integer literal of `n`, not negative. */
  predicate Written(e: Expr, n: int) {
    e.Literal? && e.kind == IntVal && ParseInt(e.text, 64) == Some(n) && n >= 0
  }

  /** LIMIT and OFFSET as written; 100 rows from the first on if they are not. */
  predicate HasWindow(l: Option<Limit>, limit: int, offset: int) {
    match l
    case None => limit == 100 && offset == 0
    case Some(l) => Written(l.rowcount, limit) && if l.offset.None? then offset == 0 else Written(l.offset.value, offset)
  }

  /** The SELECTs that have a plan, told by their syntax tree alone. */
  ghost predicate Plannable(s: Select) {
    && !s.distinct && !s.groupBy && !s.having && !s.orderBy && !s.locking
    && PlainTable(s.from) && PlainProjection(s.exprs)
    && (s.where.Some? ==> WherePlannable(s.where.value))
    && exists n, k :: HasWindow(s.limit, n, k) && n + k <= 16384
  }

  lemma {:induction false} ProjectionsAccepted(es: seq<SelectExpr>, alone: bool)
    ensures FirstError(es, alone).None? <==> forall k :: 0 <= k < |es| ==> ProjectionError(es[k], alone).None?
  {
    hide ProjectionError;
    if es != [] {
      ProjectionsAccepted(es[1..], alone);
      assert forall k :: 1 <= k < |es| ==> es[k] == es[1..][k - 1];
      assert forall k :: 0 <= k < |es[1..]| ==> es[1..][k] == es[k + 1];
    }
  }

  predicate PlainColumn(e: SelectExpr) {
    e.Projection? && e.alias == "" && e.expr.Column? && e.expr.qualifier == ""
  }

  lemma ProjectionErrors(e: SelectExpr)
    ensures ProjectionError(e, false).None? <==> PlainColumn(e)
    ensures (ProjectionError(e, true).None?
             <==> e == Star("") || (e.Projection? && e.alias == "" && IsCountStar(e.expr)) || PlainColumn(e))
  {
    hide EqualFold;
  }

  lemma ProjectionAccepted(es: seq<SelectExpr>)
    ensures FirstError(es, |es| == 1).None? <==> PlainProjection(es)
  {
    hide FirstError, IsCountStar, ProjectionError, PlainColumn;
    ProjectionsAccepted(es, |es| == 1);
    forall k | 0 <= k < |es| ensures ProjectionError(es[k], false).None? <==> PlainColumn(es[k]) {
      ProjectionErrors(es[k]);
    }
    if |es| == 1 { ProjectionErrors(es[0]); }
  }

  lemma WindowAccepted(l: Option<Limit>)
    ensures PlanLimit(l).Ok? <==> exists n, k :: HasWindow(l, n, k)
    ensures forall n, k :: HasWindow(l, n, k) ==> PlanLimit(l) == Ok((n, k))
    ensures PlanLimit(l).Ok? ==> 0 <= PlanLimit(l).value.0 < 0x8000_0000_0000_0000 && 0 <= PlanLimit(l).value.1 < 0x8000_0000_0000_0000
  {
    hide ParseInt;
    if PlanLimit(l).Ok? { assert HasWindow(l, PlanLimit(l).value.0, PlanLimit(l).value.1); }
  }

  /** `p` has the table, the window and the vector predicate of the SELECT. */
  predicate PlanOf(p: Plan, s: Select) {
    && PlainTable(s.from) && p.table == s.from[0].expr.name
    && HasWindow(s.limit, p.limit, p.offset)
    && (s.where.None? ==> p.vectorField == "" && p.filter == "")
    && (s.where.Some? ==>
          var vs := Vectors(Conjuncts(s.where.value));
          if vs == [] then p.vectorField == ""
          else p.vectorField == vs[0].left.name && p.vectorExpr == Some(vs[0].right))
    && (s.where.Some? && Scalars(Conjuncts(s.where.value)) == [] ==> p.filter == "")
  }

  /** Exactly the plannable SELECTs have a plan, with their table, their window and
      their vector predicate. */
  lemma PlansExactly(s: Select, printable: char -> bool)
    ensures PlanSelect(s, printable).Ok? <==> Plannable(s)
    ensures PlanSelect(s, printable).Ok? ==> PlanOf(PlanSelect(s, printable).value, s)
  {
    hide WherePlannable, PlanLimit, FirstError, WindowTooLarge, HasWindow, PlainProjection, Conjuncts, Scalars, Vectors,
      ExtractVector, ScalarFilter;
    ProjectionAccepted(s.exprs);
    WindowAccepted(s.limit);
    if s.where.Some? { WhereAccepted(s.where.value, printable); }
    if PlanLimit(s.limit).Ok? {
      var (n, k) := PlanLimit(s.limit).value;
      assert HasWindow(s.limit, n, k);
      WindowCheckExact(n, k);
    }
  }

  /** An accepted window really is at most 16384 rows: the int64 sum the check
      computes cannot have wrapped around. */
  lemma PlanWindow(s: Select, printable: char -> bool)
    requires PlanSelect(s, printable).Ok?
    ensures var p := PlanSelect(s, printable).value;
            0 <= p.limit && 0 <= p.offset && p.limit + p.offset <= MAX_WINDOW
  {
    hide ScalarFilter, ExtractVector, ParseInt, FirstError;
  }

  /** And nothing within the bound is refused: the window check accepts exactly
      the pairs of non-negative int64 values whose sum is at most 16384. */
  lemma WindowCheckExact(limit: int, offset: int)
    requires 0 <= limit < 0x8000_0000_0000_0000 && 0 <= offset < 0x8000_0000_0000_0000
    ensures WindowTooLarge(limit, offset) <==> limit + offset > MAX_WINDOW
  {
    if limit <= MAX_WINDOW && offset <= MAX_WINDOW {
      assert Add64(limit, offset) == limit + offset;
    }
  }

  lemma FilterNotEmpty(e: Expr, printable: char -> bool)
    requires ScalarFilter(e, printable).Ok?
    ensures ScalarFilter(e, printable).value != ""
  {
    hide FilterValue, ListItems, Join, FilterOperator;
  }

  /** Whether a row is returned under a plan: the nearest-neighbour search, if
      there is one, selects it, and so does the filter text, if there is one, as
      Milvus parses it. */
  predicate PlanHolds(p: Plan, w: World) {
    && (p.vectorField != "" && p.vectorExpr.Some? ==> w.ann(p.vectorField, p.vectorExpr.value))
    && (p.filter != "" ==> ParseFilter(p.filter).Some? && FilterHolds(ParseFilter(p.filter).value, w))
  }

  /** The columns compared in the scalar part are not filter keywords. */
  predicate PlainColumns(e: Expr) {
    ExtractVector(e).Ok? && ExtractVector(e).value.scalar.Some? ==>
      PlainNames(FilterOf(ExtractVector(e).value.scalar.value))
  }

  /** Plans preserve meaning: exactly the plannable SELECTs have one, and for every
      row and every reading of comparison, LIKE and nearest-neighbour search it
      holds exactly when the WHERE clause does. */
  lemma PlanPreservesMeaning(s: Select, printable: char -> bool, w: World)
    requires s.where.Some? ==> var e := s.where.value; WellFormed(e) && NamedVectors(e) && PlainColumns(e)
    ensures PlanSelect(s, printable).Ok? <==> Plannable(s)
    ensures Plannable(s) ==>
              (PlanHolds(PlanSelect(s, printable).value, w) <==> (s.where.Some? ==> SqlHolds(s.where.value, w)))
  {
    hide *;
    PlansExactly(s, printable);
    if Plannable(s) { PlannedMeans(s, printable, w); }
  }

  lemma PlannedMeans(s: Select, printable: char -> bool, w: World)
    requires PlanSelect(s, printable).Ok?
    requires s.where.Some? ==> var e := s.where.value; WellFormed(e) && NamedVectors(e) && PlainColumns(e)
    ensures PlanHolds(PlanSelect(s, printable).value, w) <==> (s.where.Some? ==> SqlHolds(s.where.value, w))
  {
    hide ScalarFilter, ExtractVector, ParseFilter, FilterHolds, SqlHolds, FilterOf, PlainNames, WellFormed,
      NamedVectors, ParseInt, Add64, FirstError, FilterValue;
    if s.where.Some? {
      var e := s.where.value;
      var split := ExtractVector(e).value;
      ExtractMeans(e, w);
      if split.scalar.Some? {
        var x := split.scalar.value;
        FilterNotEmpty(x, printable);
        PrintedFilterParses(x, printable);
        CompiledMeans(x, printable, w);
      }
    }
  }

  /** Were the parser to produce an unnamed column, the plan would drop its
      vector predicate: names must be non-empty for meaning to be kept. */
  lemma UnnamedVectorLost(table: string, vector: Expr, printable: char -> bool, w: World)
    requires IsVectorCall(vector)
    ensures var e := Compare("like", Column("", ""), vector, None);
            var s := Select(false, false, false, false, false, [Star("")],
                            [Aliased(TableName("", table), "", false)], Some(e), None);
            && PlanSelect(s, printable).Ok?
            && PlanHolds(PlanSelect(s, printable).value, w)
            && SqlHolds(e, w) == w.ann("", vector)
  {
    hide EqualFold, ParseFilter, ScalarFilter;
    assert [Star("")][1..] == [];
    assert FirstError([Star("")], true) == None;
    assert Add64(100, 0) == 100;
    var e := Compare("like", Column("", ""), vector, None);
    assert ExtractVector(e) == Ok(Split(None, "", Some(vector)));
  }
}
