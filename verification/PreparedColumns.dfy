/** Describing a prepared SELECT, with `0` in place of every placeholder, against
    executing it with arguments. */
module PreparedColumns {
  import opened Prelude
  import opened SqlAst
  import opened Results
  import opened SelectRows
  import opened ClientSession
  import opened SessionRules
  import FilterText
  import Plans = SelectPlan

  /** What a placeholder is described as; the parser may have folded a sign into
      it. */
  predicate IsZero(z: Expr) {
    z == Literal(IntVal, "0") || z == Literal(IntVal, "-0")
  }

  /** What the literal of an argument can be read as, null being opaque. */
  predicate IsValue(e: Expr) {
    e.Literal? || e.BoolLit? || e.Opaque? || (e.Unary? && e.operand.Literal?)
  }

  /** `e` is `z` with arguments in place of some zeros. */
  predicate Fills(z: Expr, e: Expr) {
    match z
    case And(l, r) => e.And? && Fills(l, e.left) && Fills(r, e.right)
    case Or(l, r) => e.Or? && Fills(l, e.left) && Fills(r, e.right)
    case Not(x) => e.Not? && Fills(x, e.expr)
    case Paren(x) => e.Paren? && Fills(x, e.expr)
    case Compare(op, l, r, escape) =>
      e.Compare? && e.op == op && Fills(l, e.left) && Fills(r, e.right)
      && (if escape.None? then e.escape.None? else e.escape.Some? && Fills(escape.value, e.escape.value))
    case Unary(op, x) => e.Unary? && e.op == op && Fills(x, e.operand)
    case Tuple(items) =>
      e.Tuple? && |items| == |e.items| && forall k :: 0 <= k < |items| ==> Fills(items[k], e.items[k])
    case Func(name, args) =>
      e.Func? && e.name == name && |args| == |e.args|
      && forall k :: 0 <= k < |args| ==>
           (args[k].None? <==> e.args[k].None?)
           && (args[k].Some? && e.args[k].Some? ==> Fills(args[k].value, e.args[k].value))
    case _ => z == e || (IsZero(z) && IsValue(e))
  }

  predicate FillsOption(z: Option<Expr>, e: Option<Expr>) {
    (z.None? <==> e.None?) && (z.Some? && e.Some? ==> Fills(z.value, e.value))
  }

  predicate FillsItem(z: SelectExpr, e: SelectExpr) {
    z == e || (z.Projection? && e.Projection? && z.alias == e.alias && Fills(z.expr, e.expr))
  }

  predicate FillsLimit(z: Option<Limit>, e: Option<Limit>) {
    && (z.None? <==> e.None?)
    && (z.Some? && e.Some? ==> Fills(z.value.rowcount, e.value.rowcount) && FillsOption(z.value.offset, e.value.offset))
  }

  /** `s` is the prepared SELECT `z` with its arguments. */
  predicate FillsSelect(z: Select, s: Select) {
    && s == z.(exprs := s.exprs, where := s.where, limit := s.limit)
    && |z.exprs| == |s.exprs| && (forall k :: 0 <= k < |z.exprs| ==> FillsItem(z.exprs[k], s.exprs[k]))
    && FillsOption(z.where, s.where) && FillsLimit(z.limit, s.limit)
  }

  // ------------------------------------------------------------------- filters

  lemma ValueFills(z: Expr, e: Expr, printable: char -> bool)
    requires Fills(z, e) && FilterText.FilterValue(e, printable).Ok?
    ensures FilterText.FilterValue(z, printable).Ok?
    ensures e.Literal? ==> z.Literal?
    ensures FilterText.IsListLiteral(e) ==> FilterText.IsListLiteral(z)
  {
    hide FilterText.FieldIdentifier;
  }

  lemma {:induction false} ItemsFill(zs: seq<Expr>, es: seq<Expr>, printable: char -> bool)
    requires |zs| == |es| && forall k :: 0 <= k < |zs| ==> Fills(zs[k], es[k])
    requires FilterText.ListItems(es, printable).Ok?
    ensures FilterText.ListItems(zs, printable).Ok?
  {
    hide FilterText.FilterValue, Fills, FilterText.IsListLiteral;
    if zs != [] {
      assert FilterText.FilterValue(es[0], printable).Ok?;
      ValueFills(zs[0], es[0], printable);
      ItemsFill(zs[1..], es[1..], printable);
    }
  }

  /** What compiles with the arguments compiles with zeros. */
  lemma {:induction false} FilterFills(z: Expr, e: Expr, printable: char -> bool)
    requires Fills(z, e) && FilterText.ScalarFilter(e, printable).Ok?
    ensures FilterText.ScalarFilter(z, printable).Ok?
  {
    hide FilterText.FilterValue, FilterText.ListItems, FilterText.Join, FilterText.FilterOperator, FilterText.IsListLiteral;
    match z
    case And(l, r) =>
      FilterFills(l, e.left, printable);
      FilterFills(r, e.right, printable);
    case Or(l, r) =>
      FilterFills(l, e.left, printable);
      FilterFills(r, e.right, printable);
    case Not(x) => FilterFills(x, e.expr, printable);
    case Paren(x) => FilterFills(x, e.expr, printable);
    case Compare(op, l, r, _) =>
      ValueFills(l, e.left, printable);
      if op == "in" || op == "not in" {
        ItemsFill(r.items, e.right.items, printable);
      } else {
        ValueFills(r, e.right, printable);
      }
    case _ =>
  }

  predicate FillsSplit(a: Plans.Split, b: Plans.Split) {
    a.field == b.field && FillsOption(a.scalar, b.scalar) && (a.vector.Some? <==> b.vector.Some?)
  }

  lemma JoinFills(za: Plans.Split, zb: Plans.Split, a: Plans.Split, b: Plans.Split)
    requires FillsSplit(za, a) && FillsSplit(zb, b) && Plans.JoinSplits(Ok(a), Ok(b)).Ok?
    ensures Plans.JoinSplits(Ok(za), Ok(zb)).Ok?
    ensures FillsSplit(Plans.JoinSplits(Ok(za), Ok(zb)).value, Plans.JoinSplits(Ok(a), Ok(b)).value)
  {
  }

  lemma {:induction false} SplitFills(z: Expr, e: Expr)
    requires Fills(z, e) && Plans.ExtractVector(e).Ok?
    ensures Plans.ExtractVector(z).Ok? && FillsSplit(Plans.ExtractVector(z).value, Plans.ExtractVector(e).value)
  {
    hide EqualFold, Plans.JoinSplits;
    match z
    case And(l, r) =>
      assert Plans.ExtractVector(e.left).Ok? && Plans.ExtractVector(e.right).Ok? by { JoinNeedsBoth(e); }
      SplitFills(l, e.left);
      SplitFills(r, e.right);
      JoinFills(Plans.ExtractVector(l).value, Plans.ExtractVector(r).value,
                Plans.ExtractVector(e.left).value, Plans.ExtractVector(e.right).value);
    case Paren(x) => SplitFills(x, e.expr);
    case _ =>
  }

  lemma JoinNeedsBoth(e: Expr)
    requires e.And? && Plans.ExtractVector(e).Ok?
    ensures Plans.ExtractVector(e.left).Ok? && Plans.ExtractVector(e.right).Ok?
  {
  }

  // ---------------------------------------------------------------------- plans

  lemma ZeroIsZero()
    ensures ParseInt("0", 64) == Some(0) && ParseInt("-0", 64) == Some(0)
  {
    assert "-0"[1..] == "0" && "0"[..0] == "" && NatValue("0") == 0;
  }

  lemma IntegerFills(z: Expr, e: Expr)
    requires Fills(z, e) && Plans.SelectInteger(e).Ok?
    ensures Plans.SelectInteger(z).Ok? && Plans.SelectInteger(z).value <= Plans.SelectInteger(e).value
  {
    hide ParseInt;
    ZeroIsZero();
  }

  /** A projection that is accepted has no placeholder in it. */
  lemma ItemsSame(z: SelectExpr, e: SelectExpr, alone: bool)
    requires FillsItem(z, e) && Plans.ProjectionError(e, alone).None?
    ensures z == e
  {
    hide EqualFold;
    if e.Projection? && e.expr.Func? { assert z.expr.args == e.expr.args; }
  }

  lemma {:induction false} AllItemsSame(zs: seq<SelectExpr>, es: seq<SelectExpr>, alone: bool)
    requires |zs| == |es| && forall k :: 0 <= k < |zs| ==> FillsItem(zs[k], es[k])
    requires Plans.FirstError(es, alone).None?
    ensures zs == es
  {
    hide FillsItem, Plans.ProjectionError;
    if zs != [] {
      ItemsSame(zs[0], es[0], alone);
      AllItemsSame(zs[1..], es[1..], alone);
      HeadTail(zs);
      HeadTail(es);
    }
  }

  lemma WhereFills(z: Option<Expr>, e: Option<Expr>, printable: char -> bool)
    requires FillsOption(z, e) && Plans.PlanWhere(e, printable).Ok?
    ensures Plans.PlanWhere(z, printable).Ok?
    ensures Plans.PlanWhere(z, printable).value.vectorField == Plans.PlanWhere(e, printable).value.vectorField
  {
    hide Fills, Plans.ExtractVector, FilterText.ScalarFilter;
    if z.Some? {
      SplitFills(z.value, e.value);
      var a, b := Plans.ExtractVector(z.value).value, Plans.ExtractVector(e.value).value;
      if a.scalar.Some? { FilterFills(a.scalar.value, b.scalar.value, printable); }
    }
  }

  lemma WindowFills(z: Option<Limit>, e: Option<Limit>)
    requires FillsLimit(z, e) && Plans.PlanLimit(e).Ok? && !Plans.WindowTooLarge(Plans.PlanLimit(e).value.0, Plans.PlanLimit(e).value.1)
    ensures Plans.PlanLimit(z).Ok? && !Plans.WindowTooLarge(Plans.PlanLimit(z).value.0, Plans.PlanLimit(z).value.1)
  {
    hide Fills, Plans.SelectInteger, Plans.WindowTooLarge;
    if z.Some? {
      IntegerFills(z.value.rowcount, e.value.rowcount);
      if z.value.offset.Some? { IntegerFills(z.value.offset.value, e.value.offset.value); }
    }
    var (a, b) := Plans.PlanLimit(e).value;
    var (c, d) := Plans.PlanLimit(z).value;
    Plans.WindowCheckExact(a, b);
    Plans.WindowCheckExact(c, d);
  }

  /** What is planned with the arguments is planned with zeros, on the same
      collection, with the same projection and the same vector field. */
  lemma PlanFills(z: Select, s: Select, printable: char -> bool)
    requires FillsSelect(z, s) && Plans.PlanSelect(s, printable).Ok?
    ensures z.exprs == s.exprs && Plans.PlanSelect(z, printable).Ok?
    ensures var p, q := Plans.PlanSelect(z, printable).value, Plans.PlanSelect(s, printable).value;
            p.table == q.table && p.vectorField == q.vectorField
  {
    hide FillsItem, FillsOption, FillsLimit, Plans.PlanWhere, Plans.PlanLimit, Plans.WindowTooLarge, Plans.FirstError;
    AllItemsSame(z.exprs, s.exprs, |s.exprs| == 1);
    WhereFills(z.where, s.where, printable);
    WindowFills(z.limit, s.limit);
  }

  // ---------------------------------------------------------------- main result

  /** The columns of a planned SELECT do not depend on the rest of its plan. */
  lemma DescribedAlike(z: Select, p: Plans.Plan, s: Select, q: Plans.Plan, db: string, w: World)
    requires Projectable(s.exprs) && z.exprs == s.exprs && p.table == q.table && p.vectorField == q.vectorField
    requires (p.vectorField != "" ==> p.vectorExpr.Some?) && (q.vectorField != "" ==> q.vectorExpr.Some?)
    ensures PlannedTurn(z, p, true, db, w) == PlannedTurn(s, q, true, db, w)
  {
    hide Project, Typed, Projectable;
  }

  /** The answer of a SELECT of a constant is about its projection alone. */
  lemma DualFills(z: Select, s: Select, db: string, w: World)
    requires FillsSelect(z, s) && DualAnswer(s, db).Some?
    ensures z.exprs == s.exprs ==> z == s
    ensures z.exprs != s.exprs ==> DualAnswer(z, db).None? && Plans.PlanSelect(z, w.printable).Err?
  {
    hide EqualFold, Plans.PlanWhere, Plans.PlanLimit;
    if z.exprs != s.exprs {
      assert z.exprs == [z.exprs[0]] && s.exprs == [s.exprs[0]];
      var a, b := z.exprs[0], s.exprs[0];
      assert FillsItem(a, b) && a != b;
      assert IsZero(a.expr) && "0" != "1" && "-0" != "1";
    }
  }

  /** A prepared SELECT that succeeds with its arguments was described rightly:
      with every placeholder read as 0, the same columns were announced, names and
      wire types, unless it answers a constant that is itself a placeholder. */
  lemma PreparedAsDescribed(z: Select, s: Select, db: string, w: World)
    requires FillsSelect(z, s) && SelectTurn(s, false, db, w).outcome.Ok?
    ensures (SelectTurn(z, true, db, w).outcome.Ok?
             && SameColumns(SelectTurn(s, false, db, w).outcome.value, SelectTurn(z, true, db, w).outcome.value)
             <==> !(DualAnswer(s, db).Some? && z.exprs != s.exprs))
  {
    hide FillsSelect, Plans.PlanSelect, PlannedTurn, DualAnswer, Projectable, ClientSession.Rows;
    SelectOrderly(s, false, db, w);
    if DualAnswer(s, db).Some? {
      DualFills(z, s, db, w);
    } else {
      PlanFills(z, s, w.printable);
      NoDual(z, s, db);
      AcceptedProjectable(s, w.printable);
      AcceptedProjectable(z, w.printable);
      VectorPresent(s, w.printable);
      VectorPresent(z, w.printable);
      DescribedAlike(z, Plans.PlanSelect(z, w.printable).value, s, Plans.PlanSelect(s, w.printable).value, db, w);
    }
  }

  lemma NoDual(z: Select, s: Select, db: string)
    requires FillsSelect(z, s) && z.exprs == s.exprs && DualAnswer(s, db).None?
    ensures DualAnswer(z, db).None?
  {
    hide EqualFold, Fills;
  }

  /** `select $1` executed with 1 answers a column; described, it is refused. */
  lemma SelectedPlaceholder(db: string, w: World)
    ensures var from := [Aliased(TableName("", "dual"), "", false)];
            var z := Select(false, false, false, false, false, [Projection(Literal(IntVal, "0"), "")], from, None, None);
            var s := z.(exprs := [Projection(Literal(IntVal, "1"), "")]);
            && FillsSelect(z, s)
            && SelectTurn(s, false, db, w).outcome.Ok? && SelectTurn(z, true, db, w).outcome.Err?
  {
    hide EqualFold;
    var from := [Aliased(TableName("", "dual"), "", false)];
    var z := Select(false, false, false, false, false, [Projection(Literal(IntVal, "0"), "")], from, None, None);
    var s := z.(exprs := [Projection(Literal(IntVal, "1"), "")]);
    assert "0" != "1";
    assert FillsSelect(z, s);
    DualFills(z, s, db, w);
    var rows := [[VInt(1)]];
    assert ColumnsFrom(["1"], rows[0], 1) == Ok([]);
    assert ColumnsFrom(["1"], rows[0], 0).Ok?;
    assert DualAnswer(s, db) == Some(("1", VInt(1)));
  }
}
