/** What the calls of SELECT, DELETE and INSERT mean for the rows of a collection. */
module StatementMeaning {
  import opened Prelude
  import opened SqlAst
  import opened Results
  import opened InsertColumns
  import opened SelectRows
  import opened ClientSession
  import opened SessionRules
  import FilterText
  import FilterGrammar
  import FilterRoundTrip
  import Plans = SelectPlan

  /** Whether Milvus takes a row under a filter text; the empty one takes all. */
  predicate Takes(filter: string, row: Plans.World) {
    filter != "" ==>
      FilterGrammar.ParseFilter(filter).Some? && Plans.FilterHolds(FilterGrammar.ParseFilter(filter).value, row)
  }

  /** What the parser guarantees of a WHERE clause, and column names that are not
      filter keywords. */
  predicate Readable(where: Option<Expr>) {
    where.Some? ==>
      FilterRoundTrip.WellFormed(where.value) && Plans.NamedVectors(where.value) && Plans.PlainColumns(where.value)
  }

  predicate Wanted(where: Option<Expr>, row: Plans.World) {
    where.Some? ==> Plans.SqlHolds(where.value, row)
  }

  // ------------------------------------------------------- what a SELECT does

  /** The columns of a SELECT over a schema, searching or not. */
  function Outputs(s: Select, fields: seq<SchemaField>): Result<seq<Output>> {
    if Projectable(s.exprs) then Project(s.exprs, fields, Vector(s).Some?) else Err("projection")
  }

  /** The vector predicate of a SELECT, if it has one. */
  function Vector(s: Select): (v: Option<Expr>)
    ensures v.Some? ==> v.value.Compare? && v.value.left.Column?
  {
    if s.where.None? then None
    else
      var vs := Plans.Vectors(Plans.Conjuncts(s.where.value));
      if vs == [] then None else Some(vs[0])
  }

  function Table(s: Select): string
    requires Plans.PlainTable(s.from)
  {
    s.from[0].expr.name
  }

  /** A SELECT that needs Milvus, which may be a constant one to no avail. */
  ghost predicate Planned(s: Select, db: string) {
    DualAnswer(s, db).None? && Plans.Plannable(s)
  }

  /** Its collection has a schema in which everything it names is known. */
  ghost predicate Resolved(s: Select, db: string, w: World) {
    && Planned(s, db) && w.schema(Table(s)).Ok? && Outputs(s, w.schema(Table(s)).value).Ok?
    && (Vector(s).Some? ==> !HasField(w.schema(Table(s)).value, "_distance"))
  }

  ghost predicate NoRows(s: Select) {
    exists k :: Plans.HasWindow(s.limit, 0, k)
  }

  predicate HeaderOnly(r: Result<QueryResult>, outs: seq<Output>) {
    r == Ok(QueryResult(Some(ResultSet(Headers(outs), [])), 0, 0))
  }

  lemma OnlyWindow(s: Select, printable: char -> bool, n: int, k: int)
    requires Plans.PlanSelect(s, printable).Ok? && Plans.HasWindow(s.limit, n, k)
    ensures n == Plans.PlanSelect(s, printable).value.limit && k == Plans.PlanSelect(s, printable).value.offset
  {
    hide Plans.PlanSelect, Plans.Plannable, Plans.Vectors, Plans.Conjuncts, Plans.Scalars, ParseInt;
    Plans.PlansExactly(s, printable);
  }

  lemma EmptyTyped(outs: seq<Output>)
    ensures HeaderOnly(Typed(outs, []), outs)
  {
    if outs == [] { assert Headers(outs) == []; }
  }

  lemma DistanceField(fields: seq<SchemaField>)
    ensures FieldNamed(fields, "_distance").Some? <==> HasField(fields, "_distance")
  {
    hide FieldNamed;
    if FieldNamed(fields, "_distance").Some? {
      var k :| 0 <= k < |fields| && fields[k] == FieldNamed(fields, "_distance").value;
    }
  }

  /** A SELECT without rows to fetch: refused without a call, or after reading the
      schema if that cannot be read or does not have what is named; with LIMIT 0
      the header alone. */
  lemma SelectsWithoutRows(s: Select, db: string, w: World)
    requires DualAnswer(s, db).None?
    ensures var t := SelectTurn(s, false, db, w);
            && t.db == db
            && (!Planned(s, db) ==> t.calls == [] && t.outcome.Err?)
            && (Planned(s, db) && w.schema(Table(s)).Err? ==>
                  t.calls == [DescribeCollection(Table(s))] && t.outcome == Err(w.schema(Table(s)).reason))
            && (Planned(s, db) && w.schema(Table(s)).Ok? && !Resolved(s, db, w) ==>
                  t.calls == [DescribeCollection(Table(s))] && t.outcome.Err?)
            && (Resolved(s, db, w) && NoRows(s) ==>
                  && t.calls == [DescribeCollection(Table(s))]
                  && HeaderOnly(t.outcome, Outputs(s, w.schema(Table(s)).value).value))
  {
    hide Plans.PlanSelect, Plans.Plannable, Plans.HasWindow, Plans.Vectors, Plans.Conjuncts, Plans.Scalars, DualAnswer,
      PlannedTurn, Project, Typed, Orderly, SameColumns, Outputs, HeaderOnly;
    SelectOrderly(s, false, db, w);
    Plans.PlansExactly(s, w.printable);
    if Plans.Plannable(s) {
      var p := Plans.PlanSelect(s, w.printable).value;
      AcceptedProjectable(s, w.printable);
      VectorPresent(s, w.printable);
      PlannedWithoutRows(s, p, db, w);
      if NoRows(s) {
        var k :| Plans.HasWindow(s.limit, 0, k);
        OnlyWindow(s, w.printable, 0, k);
      }
    }
  }

  lemma PlanVector(s: Select, p: Plans.Plan)
    requires Plans.PlanOf(p, s)
    ensures p.table == Table(s) && (p.vectorField != "" <==> Vector(s).Some?)
    ensures Vector(s).Some? ==> p.vectorField == Vector(s).value.left.name && p.vectorExpr == Some(Vector(s).value.right)
  {
    hide Plans.Conjuncts, Plans.Scalars, Plans.Vectors, Plans.HasWindow;
  }

  lemma PlannedWithoutRows(s: Select, p: Plans.Plan, db: string, w: World)
    requires Plans.PlainTable(s.from) && Plans.PlanOf(p, s) && Projectable(s.exprs)
    requires p.vectorField != "" ==> p.vectorExpr.Some?
    ensures var t := PlannedTurn(s, p, false, db, w);
            && (w.schema(Table(s)).Err? ==>
                  t.calls == [DescribeCollection(Table(s))] && t.outcome == Err(w.schema(Table(s)).reason))
            && (w.schema(Table(s)).Ok? ==>
                  var fields := w.schema(Table(s)).value;
                  && (Outputs(s, fields).Err? || (Vector(s).Some? && HasField(fields, "_distance")) ==>
                        t.calls == [DescribeCollection(Table(s))] && t.outcome.Err?)
                  && (Outputs(s, fields).Ok? && !(Vector(s).Some? && HasField(fields, "_distance")) && p.limit == 0 ==>
                        t.calls == [DescribeCollection(Table(s))] && HeaderOnly(t.outcome, Outputs(s, fields).value)))
  {
    hide Plans.PlanSelect, Plans.PlanOf, Project, Typed, SearchTurn, QueryTurn, HeaderOnly, FieldNamed, HasField, Vector,
      Projectable;
    PlanVector(s, p);
    if w.schema(Table(s)).Ok? {
      DistanceField(w.schema(Table(s)).value);
      if Outputs(s, w.schema(Table(s)).value).Ok? { EmptyTyped(Outputs(s, w.schema(Table(s)).value).value); }
    }
  }

  /** The fields asked of Milvus: those of the columns, each once, but the score. */
  ghost predicate AsksFields(outputs: seq<string>, outs: seq<Output>, search: bool) {
    && (forall n :: n in outputs <==> n in NamesOf(outs) && !(n == "_distance" && search))
    && forall i, j :: 0 <= i < j < |outputs| ==> outputs[i] != outputs[j]
  }

  /** Whether a SELECT is a query with rows to fetch. A count takes no LIMIT. */
  ghost predicate IsQuery(s: Select, db: string, w: World) {
    && Resolved(s, db, w) && Vector(s).None? && !NoRows(s)
    && !(NamesOf(Outputs(s, w.schema(Table(s)).value).value) == ["count(*)"] && s.limit.Some?)
  }

  /** `t` reads the schema and makes one query, within LIMIT and OFFSET unless it is
      a count, and answers with the cells found or the error met. */
  ghost predicate Queried(t: Turn, s: Select, outs: seq<Output>, w: World)
    requires Plans.PlainTable(s.from)
  {
    && |t.calls| == 2 && t.calls[0] == DescribeCollection(Table(s)) && t.calls[1].RunQuery?
    && (var c := t.calls[1];
       && c.table == Table(s) && AsksFields(c.outputs, outs, false)
       && (if NamesOf(outs) == ["count(*)"] then c.window.None?
           else c.window.Some? && Plans.HasWindow(s.limit, c.window.value.0, c.window.value.1))
       && match w.query(c)
          case Err(m) => t.outcome == Err(m)
          case Ok(cols) =>
            if cols == [] then HeaderOnly(t.outcome, outs)
            else Answers(t.outcome, FromQuery(cols), outs, |cols[0].values|))
  }

  lemma QueryTurnExact(s: Select, p: Plans.Plan, outs: seq<Output>, db: string, w: World)
    requires Plans.PlanOf(p, s) && !(NamesOf(outs) == ["count(*)"] && s.limit.Some?)
    ensures Queried(QueryTurn(p, outs, s.limit.Some?, [DescribeCollection(p.table)], db, w), s, outs, w)
  {
    hide OutputFields, QueryRows, Answers, HeaderOnly, Typed, Plans.Conjuncts, Plans.Scalars, Plans.Vectors, Plans.HasWindow;
    OutputFieldsExact(NamesOf(outs), false);
    var c := QueryCall(p, NamesOf(outs), s.limit.Some?).value;
    if w.query(c).Ok? { QueryAnswer(w.query(c).value, outs); }
  }

  lemma QueryAnswer(cols: seq<Col>, outs: seq<Output>)
    ensures cols == [] ==> HeaderOnly(QueryRows(cols, outs), outs)
    ensures cols != [] ==> Answers(QueryRows(cols, outs), FromQuery(cols), outs, |cols[0].values|)
  {
    hide Answers, HeaderOnly, Typed, RowsFrom;
    EmptyTyped(outs);
    if cols != [] { QueryAnswers(cols, outs); }
  }

  lemma CountRefused(p: Plans.Plan, outs: seq<Output>, calls: seq<Call>, db: string, w: World)
    requires NamesOf(outs) == ["count(*)"]
    ensures QueryTurn(p, outs, true, calls, db, w).calls == calls && QueryTurn(p, outs, true, calls, db, w).outcome.Err?
  {
  }

  lemma SearchMakesNoQuery(p: Plans.Plan, fields: seq<SchemaField>, outs: seq<Output>, db: string, w: World)
    requires p.vectorExpr.Some?
    ensures forall c :: c in SearchTurn(p, fields, outs, [DescribeCollection(p.table)], db, w).calls ==> !c.RunQuery?
  {
    hide VectorOf, OutputFields, SearchResult, ParamsFor;
  }

  lemma PlannedQueries(s: Select, p: Plans.Plan, db: string, w: World)
    requires Plans.PlainTable(s.from) && Plans.PlanOf(p, s) && Projectable(s.exprs)
    requires p.vectorField != "" ==> p.vectorExpr.Some?
    requires w.schema(Table(s)).Ok? && Outputs(s, w.schema(Table(s)).value).Ok?
    requires Vector(s).None? && p.limit > 0
    ensures var t, outs := PlannedTurn(s, p, false, db, w), Outputs(s, w.schema(Table(s)).value).value;
            if NamesOf(outs) == ["count(*)"] && s.limit.Some? then t.calls == [DescribeCollection(Table(s))] && t.outcome.Err?
            else Queried(t, s, outs, w)
  {
    hide Plans.PlanSelect, Plans.PlanOf, Project, Typed, SearchTurn, QueryTurn, Queried, FieldNamed, Vector, Projectable;
    PlanVector(s, p);
    var outs := Outputs(s, w.schema(Table(s)).value).value;
    if NamesOf(outs) == ["count(*)"] && s.limit.Some? {
      CountRefused(p, outs, [DescribeCollection(p.table)], db, w);
    } else {
      QueryTurnExact(s, p, outs, db, w);
    }
  }

  /** A SELECT makes its one query exactly if it is one with rows to fetch. */
  lemma SelectsByQuery(s: Select, db: string, w: World)
    ensures IsQuery(s, db, w) ==> Queried(SelectTurn(s, false, db, w), s, Outputs(s, w.schema(Table(s)).value).value, w)
    ensures !IsQuery(s, db, w) ==> forall c :: c in SelectTurn(s, false, db, w).calls ==> !c.RunQuery?
    ensures Resolved(s, db, w) && Vector(s).None? && !NoRows(s) && !IsQuery(s, db, w) ==>
              SelectTurn(s, false, db, w).calls == [DescribeCollection(Table(s))] && SelectTurn(s, false, db, w).outcome.Err?
  {
    hide Plans.PlanSelect, Plans.Plannable, Plans.PlanOf, Plans.HasWindow, DualAnswer, PlannedTurn, Outputs, HasField,
      Projectable, Vector, Queried, ClientSession.Rows;
    if DualAnswer(s, db).None? {
      SelectsWithoutRows(s, db, w);
      Plans.PlansExactly(s, w.printable);
      if Resolved(s, db, w) && !NoRows(s) {
        var p := Plans.PlanSelect(s, w.printable).value;
        AcceptedProjectable(s, w.printable);
        VectorPresent(s, w.printable);
        Plans.PlanWindow(s, w.printable);
        LimitOfPlan(s, p);
        TableIsPlain(s, p);
        if Vector(s).None? { PlannedQueries(s, p, db, w); } else { PlannedMakesNoQuery(s, p, db, w); }
      }
    }
  }

  lemma TableIsPlain(s: Select, p: Plans.Plan)
    requires Plans.PlanOf(p, s)
    ensures Plans.PlainTable(s.from)
  {
  }

  lemma LimitOfPlan(s: Select, p: Plans.Plan)
    requires Plans.PlanOf(p, s) && p.limit >= 0
    ensures p.limit == 0 ==> NoRows(s)
  {
    hide Plans.Conjuncts, Plans.Scalars, Plans.Vectors, Plans.HasWindow;
  }

  lemma PlannedMakesNoQuery(s: Select, p: Plans.Plan, db: string, w: World)
    requires Plans.PlanOf(p, s) && Projectable(s.exprs) && Vector(s).Some?
    requires p.vectorField != "" ==> p.vectorExpr.Some?
    ensures forall c :: c in PlannedTurn(s, p, false, db, w).calls ==> !c.RunQuery?
  {
    hide Plans.PlanOf, Project, Typed, SearchTurn, QueryTurn, FieldNamed, Vector, Projectable;
    PlanVector(s, p);
    if w.schema(p.table).Ok? && Columns(s, p, w.schema(p.table).value).Ok? {
      SearchMakesNoQuery(p, w.schema(p.table).value, Columns(s, p, w.schema(p.table).value).value, db, w);
    }
  }

  /** A SELECT without a vector predicate, with a readable schema, known columns and
      rows to fetch, makes exactly one query, and no other SELECT makes one. It asks
      its collection for exactly the rows its WHERE clause holds on. */
  lemma QueriesSelectTheirRows(s: Select, db: string, w: World, row: Plans.World)
    requires Readable(s.where)
    ensures IsQuery(s, db, w) ==> Queried(SelectTurn(s, false, db, w), s, Outputs(s, w.schema(Table(s)).value).value, w)
    ensures !IsQuery(s, db, w) ==> forall c :: c in SelectTurn(s, false, db, w).calls ==> !c.RunQuery?
    ensures forall c :: c in SelectTurn(s, false, db, w).calls && c.RunQuery? ==>
                          Plans.PlanTable(s) == Ok(c.table) && (Takes(c.filter, row) <==> Wanted(s.where, row))
  {
    hide Plans.SqlHolds, Takes, Plans.PlanSelect, Plans.NamedVectors, Plans.PlainColumns, FilterRoundTrip.WellFormed,
      DualAnswer, PlannedTurn, Plans.PlanTable, IsQuery, Queried, Outputs;
    SelectsByQuery(s, db, w);
    forall c | c in SelectTurn(s, false, db, w).calls && c.RunQuery?
      ensures Plans.PlanTable(s) == Ok(c.table) && (Takes(c.filter, row) <==> Wanted(s.where, row))
    {
      PlanSplits(s, w.printable);
      AcceptedProjectable(s, w.printable);
      VectorPresent(s, w.printable);
      PlannedQuery(s, Plans.PlanSelect(s, w.printable).value, db, w);
      PlanTakes(s, Plans.PlanSelect(s, w.printable).value, w.printable, row);
    }
  }

  predicate NearIfAsked(p: Plans.Plan, row: Plans.World) {
    p.vectorField != "" && p.vectorExpr.Some? ==> row.ann(p.vectorField, p.vectorExpr.value)
  }

  lemma PlanTakes(s: Select, p: Plans.Plan, printable: char -> bool, row: Plans.World)
    requires Plans.PlanSelect(s, printable) == Ok(p) && Readable(s.where)
    ensures NearIfAsked(p, row) && Takes(p.filter, row) <==> Wanted(s.where, row)
  {
    hide Plans.SqlHolds, Plans.FilterHolds, FilterGrammar.ParseFilter, Plans.PlanSelect, Plans.NamedVectors,
      Plans.PlainColumns, FilterRoundTrip.WellFormed;
    Plans.PlanPreservesMeaning(s, printable, row);
  }

  lemma PlannedQuery(s: Select, p: Plans.Plan, db: string, w: World)
    requires Projectable(s.exprs) && (p.vectorField != "" ==> p.vectorExpr.Some?)
    ensures forall c :: c in PlannedTurn(s, p, false, db, w).calls && c.RunQuery? ==>
                          c.table == p.table && c.filter == p.filter && p.vectorField == ""
  {
    hide Columns, Typed, VectorOf, OutputFields, QueryRows, SearchResult, ParamsFor;
  }

  // -------------------------------------------------------- what a search does

  /** The value searched for: of the vector predicate, in a vector field of the
      schema. */
  function Searched(s: Select, fields: seq<SchemaField>, lib: DataLib): Result<Cell>
    requires Vector(s).Some?
  {
    match FieldNamed(fields, Vector(s).value.left.name)
    case None => Err("no field")
    case Some(f) => if f.kind != FFloatVector then Err("no vector") else FieldValue(f, Vector(s).value.right, lib)
  }

  predicate HasMetric(indexes: Result<seq<Index>>) {
    && indexes.Ok? && indexes.value != [] && "metric_type" in indexes.value[0].params
    && indexes.value[0].params["metric_type"] != ""
  }

  /** Whether a SELECT is a search with rows to fetch. */
  ghost predicate IsSearch(s: Select, db: string, w: World) {
    && Resolved(s, db, w) && Vector(s).Some? && !NoRows(s)
    && Searched(s, w.schema(Table(s)).value, w.data).Ok?
    && HasMetric(w.vectorIndexes(Table(s), Vector(s).value.left.name))
  }

  /** What an index is searched with, by its kind. */
  predicate SearchedWith(params: SearchParams, kind: string, window: int) {
    if ToUpper(kind) == "HNSW" then params == Ef(if window < 64 then 64 else window)
    else if ToUpper(kind) == "IVF_FLAT" || ToUpper(kind) == "IVF_SQ8" || ToUpper(kind) == "IVF_PQ" then params == Nprobe(16)
    else params == NoParams
  }

  /** `t` reads the schema and the index, makes one search by the index's metric
      within LIMIT and OFFSET, and answers with the cells found or the error met. */
  ghost predicate SearchDone(t: Turn, s: Select, fields: seq<SchemaField>, outs: seq<Output>, w: World)
    requires Plans.PlainTable(s.from) && Vector(s).Some?
  {
    var field := Vector(s).value.left.name;
    var indexes := w.vectorIndexes(Table(s), field);
    && |t.calls| == 3 && t.calls[0] == DescribeCollection(Table(s)) && t.calls[1] == VectorIndexes(Table(s), field)
    && t.calls[2].RunSearch? && HasMetric(indexes)
    && (var c := t.calls[2];
       && c.table == Table(s) && c.field == field && AsksFields(c.outputs, outs, true)
       && Searched(s, fields, w.data) == Ok(c.vector)
       && c.metric == indexes.value[0].params["metric_type"]
       && Plans.HasWindow(s.limit, c.limit, c.offset)
       && SearchedWith(c.params, indexes.value[0].kind, c.limit + c.offset)
       && match w.search(c)
          case Err(m) => t.outcome == Err(m)
          case Ok(hits) =>
            if hits == [] then HeaderOnly(t.outcome, outs)
            else if hits[0].error.Some? then t.outcome == Err(hits[0].error.value)
            else Answers(t.outcome, FromSearch(hits[0].cols, hits[0].ids, hits[0].scores, PrimaryKey(fields)), outs,
                         hits[0].count))
  }

  lemma SearchAnswer(hits: seq<SearchHit>, outs: seq<Output>, pk: string)
    ensures hits == [] ==> HeaderOnly(SearchResult(hits, outs, pk), outs)
    ensures hits != [] && hits[0].error.Some? ==> SearchResult(hits, outs, pk) == Err(hits[0].error.value)
    ensures hits != [] && hits[0].error.None? ==>
              Answers(SearchResult(hits, outs, pk), FromSearch(hits[0].cols, hits[0].ids, hits[0].scores, pk), outs,
                      hits[0].count)
  {
    hide Answers, HeaderOnly, Typed, RowsFrom;
    EmptyTyped(outs);
    if hits != [] && hits[0].error.None? { SearchAnswers(hits, outs, pk); }
  }

  lemma ParamsExact(kind: string, limit: int, offset: int)
    requires 0 <= limit && 0 <= offset && limit + offset <= 16384
    ensures SearchedWith(ParamsFor(kind, limit, offset), kind, limit + offset)
  {
    hide ToUpper;
    assert Plans.Add64(limit, offset) == limit + offset;
  }

  lemma CallExact(p: Plans.Plan, fields: seq<SchemaField>, outputs: seq<string>, indexes: seq<Index>, v: Cell)
    ensures SearchCall(p, fields, outputs, indexes, v).Ok? <==> HasMetric(Ok(indexes))
    ensures SearchCall(p, fields, outputs, indexes, v).Ok? ==>
              SearchCall(p, fields, outputs, indexes, v)
              == Ok(RunSearch(p.table, p.filter, outputs, v, p.vectorField, indexes[0].params["metric_type"], p.limit,
                              ParamsFor(indexes[0].kind, p.limit, p.offset), p.offset))
  {
    hide ParamsFor;
  }

  lemma SearchTurnExact(s: Select, p: Plans.Plan, fields: seq<SchemaField>, outs: seq<Output>, db: string, w: World)
    requires Plans.PlanOf(p, s) && Vector(s).Some? && p.vectorExpr.Some?
    requires 0 <= p.limit && 0 <= p.offset && p.limit + p.offset <= 16384
    ensures var t := SearchTurn(p, fields, outs, [DescribeCollection(p.table)], db, w);
            if Searched(s, fields, w.data).Ok? && HasMetric(w.vectorIndexes(Table(s), Vector(s).value.left.name))
            then SearchDone(t, s, fields, outs, w)
            else t.outcome.Err? && forall c :: c in t.calls ==> !c.RunSearch?
  {
    hide OutputFields, SearchResult, Answers, HeaderOnly, Typed, Plans.Conjuncts, Plans.Scalars, Plans.Vectors,
      Plans.HasWindow, FieldValue, FieldNamed, ParamsFor, SearchedWith, SearchCall, HasMetric, AsksFields, Vector;
    PlanVector(s, p);
    OutputFieldsAsked(outs);
    var indexes := w.vectorIndexes(p.table, p.vectorField);
    if VectorOf(p, fields, w.data).Ok? && indexes.Ok? {
      var v := VectorOf(p, fields, w.data).value;
      CallExact(p, fields, OutputFields(NamesOf(outs), true), indexes.value, v);
      var c := SearchCall(p, fields, OutputFields(NamesOf(outs), true), indexes.value, v);
      if c.Ok? {
        MetricIndex(indexes);
        ParamsExact(indexes.value[0].kind, p.limit, p.offset);
        if w.search(c.value).Ok? { SearchAnswer(w.search(c.value).value, outs, PrimaryKey(fields)); }
      }
    } else {
      NoMetric(indexes);
    }
  }

  lemma MetricIndex(indexes: Result<seq<Index>>)
    requires HasMetric(indexes)
    ensures indexes.Ok? && indexes.value != [] && "metric_type" in indexes.value[0].params
  {
  }

  lemma NoMetric(indexes: Result<seq<Index>>)
    ensures indexes.Err? ==> !HasMetric(indexes)
  {
  }

  lemma OutputFieldsAsked(outs: seq<Output>)
    ensures AsksFields(OutputFields(NamesOf(outs), true), outs, true)
  {
    hide OutputFields;
    OutputFieldsExact(NamesOf(outs), true);
  }

  lemma PlannedSearches(s: Select, p: Plans.Plan, db: string, w: World)
    requires Plans.PlainTable(s.from) && Plans.PlanOf(p, s) && Projectable(s.exprs)
    requires p.vectorField != "" ==> p.vectorExpr.Some?
    requires 0 < p.limit && 0 <= p.offset && p.limit + p.offset <= 16384
    requires w.schema(Table(s)).Ok? && Outputs(s, w.schema(Table(s)).value).Ok?
    requires Vector(s).Some? && !HasField(w.schema(Table(s)).value, "_distance")
    ensures var t, fields := PlannedTurn(s, p, false, db, w), w.schema(Table(s)).value;
            if Searched(s, fields, w.data).Ok? && HasMetric(w.vectorIndexes(Table(s), Vector(s).value.left.name))
            then SearchDone(t, s, fields, Outputs(s, fields).value, w)
            else t.outcome.Err? && forall c :: c in t.calls ==> !c.RunSearch?
  {
    hide Plans.PlanOf, Project, Typed, SearchTurn, QueryTurn, SearchDone, FieldNamed, Vector, Projectable, Searched,
      HasMetric, HasField;
    PlanVector(s, p);
    DistanceField(w.schema(Table(s)).value);
    SearchTurnExact(s, p, w.schema(Table(s)).value, Outputs(s, w.schema(Table(s)).value).value, db, w);
  }

  lemma QueryMakesNoSearch(s: Select, p: Plans.Plan, db: string, w: World)
    requires Plans.PlanOf(p, s) && Projectable(s.exprs) && Vector(s).None?
    requires p.vectorField != "" ==> p.vectorExpr.Some?
    ensures forall c :: c in PlannedTurn(s, p, false, db, w).calls ==> !c.RunSearch?
  {
    hide Plans.PlanOf, Project, Typed, QueryRows, OutputFields, FieldNamed, Vector, Projectable, SearchTurn;
    PlanVector(s, p);
  }

  /** A SELECT makes its one search exactly if it is one with rows to fetch. */
  lemma SelectsBySearch(s: Select, db: string, w: World)
    ensures IsSearch(s, db, w) ==>
              SearchDone(SelectTurn(s, false, db, w), s, w.schema(Table(s)).value,
                         Outputs(s, w.schema(Table(s)).value).value, w)
    ensures !IsSearch(s, db, w) ==> forall c :: c in SelectTurn(s, false, db, w).calls ==> !c.RunSearch?
    ensures Resolved(s, db, w) && Vector(s).Some? && !NoRows(s) && !IsSearch(s, db, w) ==>
              SelectTurn(s, false, db, w).outcome.Err?
  {
    hide Plans.PlanSelect, Plans.Plannable, Plans.PlanOf, Plans.HasWindow, DualAnswer, PlannedTurn, Outputs, HasField,
      Projectable, Vector, SearchDone, ClientSession.Rows, Searched, HasMetric;
    if DualAnswer(s, db).None? {
      SelectsWithoutRows(s, db, w);
      Plans.PlansExactly(s, w.printable);
      if Resolved(s, db, w) && !NoRows(s) {
        var p := Plans.PlanSelect(s, w.printable).value;
        AcceptedProjectable(s, w.printable);
        VectorPresent(s, w.printable);
        Plans.PlanWindow(s, w.printable);
        LimitOfPlan(s, p);
        TableIsPlain(s, p);
        if Vector(s).Some? { PlannedSearches(s, p, db, w); } else { QueryMakesNoSearch(s, p, db, w); }
      }
    }
  }

  /** The last key of a schema; an accepted schema has one. */
  lemma {:induction false} KeyFound(fields: seq<SchemaField>, k: nat)
    requires k < |fields| && fields[k].primaryKey && forall j :: k < j < |fields| ==> !fields[j].primaryKey
    ensures PrimaryKey(fields) == fields[k].name
  {
    if k < |fields| - 1 { KeyFound(fields[..|fields| - 1], k); }
  }

  /** A search for the value of a vector expression in a vector field of the
      collection's own schema. */
  predicate Searches(c: Call, field: string, vector: Expr, w: World) {
    && c.RunSearch? && c.field == field && w.schema(c.table).Ok?
    && FieldNamed(w.schema(c.table).value, field).Some?
    && FieldNamed(w.schema(c.table).value, field).value.kind == FFloatVector
    && FieldValue(FieldNamed(w.schema(c.table).value, field).value, vector, w.data) == Ok(c.vector)
  }

  /** A SELECT with a vector predicate that has a value, on an indexed vector field,
      makes exactly one search, and no other SELECT makes one. It is for the
      neighbours of that value, on the field named, among rows such that together
      they are the ones the WHERE clause holds on. */
  lemma SearchesSelectTheirRows(s: Select, db: string, w: World, row: Plans.World)
    requires Readable(s.where)
    ensures IsSearch(s, db, w) ==>
              SearchDone(SelectTurn(s, false, db, w), s, w.schema(Table(s)).value,
                         Outputs(s, w.schema(Table(s)).value).value, w)
    ensures !IsSearch(s, db, w) ==> forall c :: c in SelectTurn(s, false, db, w).calls ==> !c.RunSearch?
    ensures forall c :: c in SelectTurn(s, false, db, w).calls && c.RunSearch? ==>
              && Plans.PlanTable(s) == Ok(c.table) && s.where.Some? && Plans.ExtractVector(s.where.value).Ok?
              && (var split := Plans.ExtractVector(s.where.value).value;
                 && split.vector.Some? && Searches(c, split.field, split.vector.value, w)
                 && (row.ann(split.field, split.vector.value) && Takes(c.filter, row) <==> Wanted(s.where, row)))
  {
    hide Plans.SqlHolds, Takes, Plans.PlanSelect, Plans.NamedVectors, Plans.PlainColumns, FilterRoundTrip.WellFormed,
      DualAnswer, PlannedTurn, Plans.ExtractVector, Searches, Plans.PlanTable, IsSearch, SearchDone, Outputs;
    SelectsBySearch(s, db, w);
    forall c | c in SelectTurn(s, false, db, w).calls && c.RunSearch?
      ensures && Plans.PlanTable(s) == Ok(c.table) && s.where.Some? && Plans.ExtractVector(s.where.value).Ok?
              && (var split := Plans.ExtractVector(s.where.value).value;
                 && split.vector.Some? && Searches(c, split.field, split.vector.value, w)
                 && (row.ann(split.field, split.vector.value) && Takes(c.filter, row) <==> Wanted(s.where, row)))
    {
      AcceptedProjectable(s, w.printable);
      VectorPresent(s, w.printable);
      var p := Plans.PlanSelect(s, w.printable).value;
      PlannedSearch(s, p, db, w);
      PlanSplits(s, w.printable);
      PlanTakes(s, p, w.printable, row);
    }
  }

  lemma PlanSplits(s: Select, printable: char -> bool)
    requires Plans.PlanSelect(s, printable).Ok?
    ensures var p := Plans.PlanSelect(s, printable).value;
            && Plans.PlanTable(s) == Ok(p.table)
            && (p.vectorField != "" ==> s.where.Some?)
            && (s.where.Some? ==>
                  && Plans.ExtractVector(s.where.value).Ok?
                  && p.vectorField == Plans.ExtractVector(s.where.value).value.field
                  && p.vectorExpr == Plans.ExtractVector(s.where.value).value.vector)
  {
    hide Plans.ExtractVector, FilterText.ScalarFilter, Plans.FirstError, Plans.PlanLimit, Plans.WindowTooLarge,
      Plans.PlanTable;
  }

  lemma PlannedSearch(s: Select, p: Plans.Plan, db: string, w: World)
    requires Projectable(s.exprs) && (p.vectorField != "" ==> p.vectorExpr.Some?)
    ensures forall c :: c in PlannedTurn(s, p, false, db, w).calls && c.RunSearch? ==>
              && c.table == p.table && c.filter == p.filter && p.vectorField != "" && p.vectorExpr.Some?
              && Searches(c, p.vectorField, p.vectorExpr.value, w)
  {
    hide Columns, Typed, OutputFields, QueryRows, SearchResult, ParamsFor, FieldValue, FieldNamed;
  }

  // ------------------------------------------------------- DELETE and INSERT

  /** The DELETEs that are carried out: of one plain table, by a condition that has a
      filter, and with no other clause. */
  predicate Deletable(d: Delete) {
    && !d.targets && !d.partitions && !d.limit && !d.orderBy
    && Plans.PlainTable(d.from) && d.where.Some? && FilterText.Compilable(d.where.value)
  }

  /** How a statement that is one changing call ends. */
  predicate OneCall(t: Turn, c: Call, done: QueryResult, w: World) {
    t.calls == [c] && t.outcome == match w.change(c) case None => Ok(done) case Some(e) => Err(e)
  }

  lemma DeletesExactly(d: Delete, db: string, w: World)
    ensures var t := DeleteTurn(d, db, w);
            && t.db == db
            && (Deletable(d) ==>
                  && |t.calls| == 1 && t.calls[0].DeleteRows? && t.calls[0].table == d.from[0].expr.name
                  && OneCall(t, t.calls[0], QueryResult(None, 0, 0), w))
            && (!Deletable(d) ==> t.calls == [] && t.outcome.Err?)
  {
    hide FilterText.ScalarFilter, FilterText.Compilable;
    if d.where.Some? { FilterText.CompilesExactly(d.where.value, w.printable); }
  }

  /** A DELETE that can be carried out is one call on its table, which succeeds if
      Milvus accepts it; it removes exactly the rows the WHERE clause holds on, and
      never passes an empty filter. Any other DELETE makes no call and fails. */
  lemma DeletesTheirRows(d: Delete, db: string, w: World, row: Plans.World)
    requires d.where.Some? ==>
               FilterRoundTrip.WellFormed(d.where.value)
               && FilterRoundTrip.PlainNames(FilterRoundTrip.FilterOf(d.where.value))
    ensures var t := DeleteTurn(d, db, w);
            if Deletable(d) then
              && |t.calls| == 1 && t.calls[0].DeleteRows? && t.calls[0].table == d.from[0].expr.name
              && OneCall(t, t.calls[0], QueryResult(None, 0, 0), w)
            else t.calls == [] && t.outcome.Err?
    ensures forall c :: c in DeleteTurn(d, db, w).calls ==>
              c.DeleteRows? && c.filter != "" && d.where.Some? && (Takes(c.filter, row) <==> Wanted(d.where, row))
  {
    hide Plans.SqlHolds, Plans.FilterHolds, FilterGrammar.ParseFilter, FilterText.ScalarFilter, FilterText.Compilable,
      FilterRoundTrip.WellFormed, FilterRoundTrip.PlainNames, FilterRoundTrip.FilterOf, OneCall;
    DeletesExactly(d, db, w);
    if DeleteTurn(d, db, w).calls != [] {
      var e := d.where.value;
      Plans.FilterNotEmpty(e, w.printable);
      FilterRoundTrip.PrintedFilterParses(e, w.printable);
      Plans.FilterMeans(e, w.printable, row);
    }
  }

  /** What an INSERT does: refused without a call for an unsupported clause, after
      reading the schema if that fails or the INSERT is not valid in it, and else
      one write of its columns, an upsert for REPLACE, reporting its rows and the
      first ID Milvus gave if that is a non-negative integer. */
  lemma InsertsExactly(ins: Insert, db: string, w: World)
    ensures var t := InsertTurn(ins, db, w);
            && t.db == db
            && (if ins.qualified || ins.ignore || ins.onDuplicate || ins.partitions then t.calls == [] && t.outcome.Err?
                else match w.schema(ins.table)
                  case Err(m) => t.calls == [DescribeCollection(ins.table)] && t.outcome == Err(m)
                  case Ok(fields) =>
                    if ValidInsert(fields, ins, w.data) then Written(t, ins, fields, w)
                    else t.calls == [DescribeCollection(ins.table)] && t.outcome.Err?)
  {
    hide FillInsertColumns, ValidInsert, AreColumns, Names;
    if w.schema(ins.table).Ok? {
      InsertTransposes(w.schema(ins.table).value, ins, w.data);
      if ValidInsert(w.schema(ins.table).value, ins, w.data) { ValidRows(w.schema(ins.table).value, ins, w.data); }
    }
  }

  lemma ValidRows(fields: seq<SchemaField>, ins: Insert, lib: DataLib)
    requires ValidInsert(fields, ins, lib)
    ensures ins.rows.Some? && |ins.rows.value| > 0
  {
  }

  predicate Written(t: Turn, ins: Insert, fields: seq<SchemaField>, w: World) {
    && |t.calls| == 2 && t.calls[0] == DescribeCollection(ins.table)
    && (if ins.replace then t.calls[1].UpsertRows? else t.calls[1].InsertRows?)
    && t.calls[1].table == ins.table && ins.rows.Some?
    && AreColumns(t.calls[1].columns, fields, Names(fields, ins), ins.rows.value, 0, w.data)
    && match w.write(t.calls[1])
       case Err(m) => t.outcome == Err(m)
       case Ok(id) =>
         t.outcome == Ok(QueryResult(None, |ins.rows.value|,
                                     if id.Some? && id.value.VInt? && id.value.n >= 0 then id.value.n else 0))
  }

  /** A successful INSERT made one write, and the rows it reports are the cells of
      every column written. */
  lemma InsertsReportTheirRows(ins: Insert, db: string, w: World)
    requires InsertTurn(ins, db, w).outcome.Ok?
    ensures var t := InsertTurn(ins, db, w);
            && |t.calls| == 2 && t.calls[0] == DescribeCollection(ins.table)
            && (t.calls[1].InsertRows? || t.calls[1].UpsertRows?)
            && t.outcome.value.affected == |ins.rows.value| > 0
            && forall k :: 0 <= k < |t.calls[1].columns| ==> |t.calls[1].columns[k].data| == t.outcome.value.affected
  {
    hide FillInsertColumns, IsColumn, Names;
    var fields := w.schema(ins.table).value;
    InsertTransposes(fields, ins, w.data);
    var columns := FillInsertColumns(fields, ins, w.data).value;
    forall k | 0 <= k < |columns| ensures |columns[k].data| == |ins.rows.value| {
      var names := Names(fields, ins);
      assert IsColumn(columns[k], fields, names, ins.rows.value, 0 + k, w.data);
      ColumnLength(columns[k], fields, names, ins.rows.value, k, w.data);
    }
  }

  lemma ColumnLength(c: MilvusColumn, fields: seq<SchemaField>, names: seq<string>, rows: seq<seq<Expr>>, j: nat,
                     lib: DataLib)
    requires j < |names| && IsColumn(c, fields, names, rows, j, lib)
    ensures |c.data| == |rows|
  {
    hide FieldValue, FieldNamed, EmptyColumn;
  }
}
