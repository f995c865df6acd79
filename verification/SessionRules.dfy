/** What holds of every statement of a session, whatever Milvus answers. */
module SessionRules {
  import opened Prelude
  import opened SqlAst
  import opened Results
  import opened InsertColumns
  import opened SelectRows
  import opened ClientSession
  import Ddl
  import FilterText
  import Plans = SelectPlan

  // -------------------------------------------------------------- result sets

  lemma TypedShape(outs: seq<Output>, rows: seq<seq<Value>>)
    ensures rows == [] ==> Typed(outs, rows).Ok?
    ensures Typed(outs, rows).Ok? ==>
              var r := Typed(outs, rows).value.resultset;
              r.Some? && Rectangular(r.value) && r.value.columns == Headers(outs) && r.value.rows == rows
  {
    hide FormatKind, ColumnsFrom;
    if Typed(outs, rows).Ok? {
      BuiltShape(Headers(outs), NamesOf(outs), rows);
      if outs == [] { assert Headers(outs) == []; }
    }
  }

  lemma RowsShape(names: seq<string>, rows: seq<seq<Value>>)
    ensures rows == [] ==> Rows(names, rows).Ok? && Rows(names, rows).value.resultset.value.columns == Untyped(names)
    ensures Rows(names, rows).Ok? ==>
              var r := Rows(names, rows).value.resultset;
              r.Some? && Rectangular(r.value) && r.value.rows == rows && |r.value.columns| == |names|
              && forall k :: 0 <= k < |names| ==>
                   r.value.columns[k].name == names[k]
                   && (rows != [] ==> FormatKind(rows[0][k]) == Ok(r.value.columns[k].kind))
  {
    hide FormatKind, ColumnsFrom;
    if Rows(names, rows).Ok? { BuiltShape([], names, rows); }
  }

  lemma TextColumns(names: seq<string>, rows: seq<seq<Value>>)
    requires Rows(names, rows).Ok? && rows != []
    requires forall k :: 0 <= k < |rows[0]| ==> rows[0][k].VText?
    ensures Rows(names, rows).value.resultset.value.columns == Untyped(names)
  {
    hide BuildResultset;
    RowsShape(names, rows);
    var columns := Rows(names, rows).value.resultset.value.columns;
    forall k | 0 <= k < |names| ensures columns[k] == Untyped(names)[k] {
      assert FormatKind(rows[0][k]) == Ok(columns[k].kind);
    }
  }

  // -------------------------------------------- rules about the calls of a turn

  /** Reads first: at most one call changes anything, and it is the last. */
  predicate ChangesLast(calls: seq<Call>) {
    forall k :: 0 <= k < |calls| - 1 ==> !Mutates(calls[k])
  }

  /** A described statement asks for a schema at most. */
  predicate OnlyDescribes(calls: seq<Call>) {
    |calls| <= 1 && forall c :: c in calls ==> c.DescribeCollection?
  }

  /** The window of a search or query is one an accepted SELECT asked for. */
  predicate GoodWindow(c: Call) {
    && (c.RunSearch? ==>
          && 0 < c.limit && 0 <= c.offset && c.limit + c.offset <= 16384
          && (c.params.Ef? ==> 64 <= c.params.ef <= 16384 && c.limit + c.offset <= c.params.ef))
    && (c.RunQuery? && c.window.Some? ==>
          0 < c.window.value.0 && 0 <= c.window.value.1 && c.window.value.0 + c.window.value.1 <= 16384)
  }

  /** Rows are only written after the whole INSERT was validated against the
      schema just read. */
  predicate Validated(c: Call, ins: Insert, w: World) {
    c.InsertRows? || c.UpsertRows? ==>
      && w.schema(ins.table).Ok? && c.table == ins.table && c.UpsertRows? == ins.replace
      && ValidInsert(w.schema(ins.table).value, ins, w.data)
      && FillInsertColumns(w.schema(ins.table).value, ins, w.data) == Ok(c.columns)
  }

  predicate Orderly(t: Turn) {
    && ChangesLast(t.calls)
    && (forall c :: c in t.calls ==> GoodWindow(c))
    && (t.outcome.Ok? ==> WellShaped(t.outcome.value))
  }

  // ------------------------------------------------------------------- SELECT

  lemma EfWindow(kind: string, limit: int, offset: int)
    requires 0 < limit && 0 <= offset && limit + offset <= 16384
    ensures ParamsFor(kind, limit, offset).Ef? ==>
              64 <= ParamsFor(kind, limit, offset).ef <= 16384 && limit + offset <= ParamsFor(kind, limit, offset).ef
  {
    hide ToUpper;
    assert Plans.Add64(limit, offset) == limit + offset;
  }

  predicate Windowed(p: Plans.Plan) {
    0 < p.limit && 0 <= p.offset && p.limit + p.offset <= 16384
  }

  lemma SearchOrderly(p: Plans.Plan, fields: seq<SchemaField>, outs: seq<Output>, db: string, w: World)
    requires p.vectorExpr.Some? && Windowed(p)
    ensures var t := SearchTurn(p, fields, outs, [DescribeCollection(p.table)], db, w);
            && Orderly(t) && t.db == db
            && (t.outcome.Ok? ==> t.outcome.value.resultset.Some?
                                  && t.outcome.value.resultset.value.columns == Headers(outs))
  {
    hide FieldValue, OutputFields, RowsFrom, Typed, ParamsFor;
    if VectorOf(p, fields, w.data).Ok? && w.vectorIndexes(p.table, p.vectorField).Ok? {
      var indexes := w.vectorIndexes(p.table, p.vectorField).value;
      var v := VectorOf(p, fields, w.data).value;
      var c := SearchCall(p, fields, OutputFields(NamesOf(outs), true), indexes, v);
      if c.Ok? {
        EfWindow(indexes[0].kind, p.limit, p.offset);
        if w.search(c.value).Ok? { SearchShape(w.search(c.value).value, outs, PrimaryKey(fields)); }
      }
    }
  }

  lemma SearchShape(hits: seq<SearchHit>, outs: seq<Output>, pk: string)
    ensures SearchResult(hits, outs, pk).Ok? ==>
              var r := SearchResult(hits, outs, pk).value.resultset;
              r.Some? && Rectangular(r.value) && r.value.columns == Headers(outs)
  {
    hide Typed, RowsFrom;
    TypedShape(outs, []);
    if hits != [] && hits[0].error.None? {
      var hit := hits[0];
      var rows := RowsFrom(FromSearch(hit.cols, hit.ids, hit.scores, pk), NamesOf(outs), hit.count, 0);
      if rows.Ok? { TypedShape(outs, rows.value); }
    }
  }

  lemma QueryShape(cols: seq<Col>, outs: seq<Output>)
    ensures QueryRows(cols, outs).Ok? ==>
              var r := QueryRows(cols, outs).value.resultset;
              r.Some? && Rectangular(r.value) && r.value.columns == Headers(outs)
  {
    hide Typed, RowsFrom;
    TypedShape(outs, []);
    if cols != [] {
      var rows := RowsFrom(FromQuery(cols), NamesOf(outs), |cols[0].values|, 0);
      if rows.Ok? { TypedShape(outs, rows.value); }
    }
  }

  lemma QueryOrderly(p: Plans.Plan, outs: seq<Output>, limited: bool, db: string, w: World)
    requires Windowed(p)
    ensures var t := QueryTurn(p, outs, limited, [DescribeCollection(p.table)], db, w);
            && Orderly(t) && t.db == db
            && (t.outcome.Ok? ==> t.outcome.value.resultset.Some?
                                  && t.outcome.value.resultset.value.columns == Headers(outs))
  {
    hide OutputFields, QueryRows;
    var c := QueryCall(p, NamesOf(outs), limited);
    if c.Ok? && w.query(c.value).Ok? { QueryShape(w.query(c.value).value, outs); }
  }

  /** Describing or executing, an accepted SELECT has the columns its projection
      has in the schema, and describing never fails when executing does not. */
  lemma PlannedOrderly(s: Select, p: Plans.Plan, describe: bool, db: string, w: World)
    requires Projectable(s.exprs) && (p.vectorField != "" ==> p.vectorExpr.Some?)
    requires 0 <= p.limit && 0 <= p.offset && p.limit + p.offset <= 16384
    ensures var t, d := PlannedTurn(s, p, describe, db, w), PlannedTurn(s, p, true, db, w);
            && Orderly(t) && t.db == db && (describe ==> OnlyDescribes(t.calls))
            && (t.outcome.Ok? ==> d.outcome.Ok? && SameColumns(t.outcome.value, d.outcome.value))
  {
    hide SearchTurn, QueryTurn, Columns, Typed;
    if w.schema(p.table).Ok? {
      var fields := w.schema(p.table).value;
      if Columns(s, p, fields).Ok? {
        var outs := Columns(s, p, fields).value;
        TypedShape(outs, []);
        if p.limit > 0 {
          QueryOrderly(p, outs, s.limit.Some?, db, w);
          if p.vectorField != "" { SearchOrderly(p, fields, outs, db, w); }
        }
      }
    }
  }

  predicate SameColumns(a: QueryResult, b: QueryResult) {
    && (a.resultset.Some? <==> b.resultset.Some?)
    && (a.resultset.Some? && b.resultset.Some? ==> a.resultset.value.columns == b.resultset.value.columns)
  }

  lemma SelectOrderly(s: Select, describe: bool, db: string, w: World)
    ensures var t, d := SelectTurn(s, describe, db, w), SelectTurn(s, true, db, w);
            && Orderly(t) && t.db == db && (describe ==> OnlyDescribes(t.calls))
            && (t.outcome.Ok? ==> d.outcome.Ok? && SameColumns(t.outcome.value, d.outcome.value))
  {
    hide Plans.PlanSelect, PlannedTurn, DualAnswer, Rows, Projectable;
    if DualAnswer(s, db).Some? {
      RowsShape([DualAnswer(s, db).value.0], [[DualAnswer(s, db).value.1]]);
    } else if Plans.PlanSelect(s, w.printable).Ok? {
      AcceptedProjectable(s, w.printable);
      VectorPresent(s, w.printable);
      Plans.PlanWindow(s, w.printable);
      PlannedOrderly(s, Plans.PlanSelect(s, w.printable).value, describe, db, w);
    }
  }

  /** LIMIT 0 answers with the header alone, asking for the schema and no rows:
      executing is then the same as describing. */
  lemma LimitZeroDescribes(s: Select, db: string, w: World)
    requires DualAnswer(s, db).None? && Plans.PlanSelect(s, w.printable).Ok?
    requires Plans.PlanSelect(s, w.printable).value.limit == 0
    ensures SelectTurn(s, false, db, w) == SelectTurn(s, true, db, w)
    ensures OnlyDescribes(SelectTurn(s, false, db, w).calls)
  {
    hide Plans.PlanSelect, Columns, Typed, DualAnswer;
    SelectOrderly(s, true, db, w);
  }

  // ------------------------------------------------------ the other statements

  lemma ChangedOrderly(c: Call, db: string, w: World, r: QueryResult)
    requires !c.RunSearch? && !c.RunQuery? && r.resultset.None?
    ensures Orderly(Changed(c, db, w, r)) && Changed(c, db, w, r).db == db && Changed(c, db, w, r).calls == [c]
  {
  }

  lemma InsertOrderly(ins: Insert, db: string, w: World)
    ensures var t := InsertTurn(ins, db, w);
            && Orderly(t) && t.db == db && (forall c :: c in t.calls ==> Validated(c, ins, w))
            && (t.outcome.Ok? ==> t.outcome.value.resultset.None?)
  {
    hide FillInsertColumns, ValidInsert, AreColumns, Names, FirstId;
    if w.schema(ins.table).Ok? { InsertTransposes(w.schema(ins.table).value, ins, w.data); }
  }

  lemma ListOrderly(title: string, c: Call, answer: Result<seq<string>>, describe: bool, db: string)
    requires !c.RunSearch? && !c.RunQuery?
    ensures var t, d := ListTurn(title, c, answer, describe, db), ListTurn(title, c, answer, true, db);
            && Orderly(t) && t.db == db && d.calls == [] && d.outcome.Ok?
            && (t.outcome.Ok? ==> SameColumns(t.outcome.value, d.outcome.value))
  {
    hide Rows;
    RowsShape([title], []);
    if !describe && answer.Ok? {
      RowsShape([title], TextRows(answer.value));
      if Rows([title], TextRows(answer.value)).Ok? && answer.value != [] {
        TextColumns([title], TextRows(answer.value));
      }
    }
  }

  lemma IndexesOrderly(table: string, describe: bool, db: string, w: World)
    ensures var t, d := IndexesTurn(table, describe, db, w), IndexesTurn(table, true, db, w);
            && Orderly(t) && t.db == db && d.calls == [] && d.outcome.Ok?
            && (t.outcome.Ok? ==> SameColumns(t.outcome.value, d.outcome.value))
  {
    hide Rows;
    RowsShape(INDEX_NAMES, []);
    if !describe && w.indexes(table).Ok? {
      var rows := IndexRows(w.indexes(table).value, w);
      RowsShape(INDEX_NAMES, rows);
      if Rows(INDEX_NAMES, rows).Ok? && rows != [] { TextColumns(INDEX_NAMES, rows); }
    }
  }

  predicate EmptySchema(table: string, w: World) {
    w.schema(table) == Ok([])
  }

  /** DESCRIBE announces two booleans, but types its columns by its first row:
      the two agree exactly when the schema has a field. */
  lemma DescribeOrderly(table: string, describe: bool, db: string, w: World)
    ensures var t, d := DescribeTurn(table, describe, db, w), DescribeTurn(table, true, db, w);
            && Orderly(t) && t.db == db && d.calls == [] && d.outcome.Ok?
            && (t.outcome.Ok? ==>
                  (SameColumns(t.outcome.value, d.outcome.value) <==> describe || !EmptySchema(table, w)))
  {
    hide Rows;
    if !describe && w.schema(table).Ok? {
      var fields := w.schema(table).value;
      var rows := FieldRows(fields, w);
      RowsShape(DESCRIBE_NAMES, rows);
      if Rows(DESCRIBE_NAMES, rows).Ok? {
        var columns := Rows(DESCRIBE_NAMES, rows).value.resultset.value.columns;
        if fields == [] {
          assert columns[2].kind == VarString && DescribeHeader().columns[2].kind == Tiny;
        } else {
          DescribedKinds(fields[0], columns, w);
        }
      }
    }
  }

  lemma DescribedKinds(f: SchemaField, columns: seq<ResultColumn>, w: World)
    requires |columns| == 5
    requires forall k :: 0 <= k < 5 ==>
               columns[k].name == DESCRIBE_NAMES[k] && FormatKind(FieldRow(f, w)[k]) == Ok(columns[k].kind)
    ensures columns == DescribeHeader().columns
  {
    var header := DescribeHeader().columns;
    forall k | 0 <= k < 5 ensures columns[k] == header[k] {
      assert FormatKind(FieldRow(f, w)[k]) == Ok(columns[k].kind);
    }
  }

  lemma StmtOrderly(s: Stmt, describe: bool, db: string, w: World)
    ensures var t, d := StmtTurn(s, describe, db, w), StmtTurn(s, true, db, w);
            && Orderly(t) && (describe ==> OnlyDescribes(t.calls) && t.db == db)
            && (t.outcome.Ok? ==> d.outcome.Ok? && SameColumns(t.outcome.value, d.outcome.value))
  {
    hide SelectTurn, ListTurn, InsertTurn, DeleteTable, FilterText.ScalarFilter, Ddl.SchemaOf, ToUpper, Orderly, Changed,
      SameColumns, OnlyDescribes, CreateTurn, DeleteTurn, DropTurn, DatabaseTurn, UseTurn, ShowTurn;
    SimpleOrderly([], db);
    match s {
      case SelectStmt(select) => SelectOrderly(select, describe, db, w);
      case Show(kind) => ShowOrderly(kind, describe, db, w);
      case InsertStmt(ins) =>
        InsertOrderly(ins, db, w);
        SameNone(InsertTurn(ins, db, w));
      case _ =>
        WritesOrderly(s, db, w);
        SameNone(StmtTurn(s, false, db, w));
    }
  }

  lemma SimpleOrderly(calls: seq<Call>, db: string)
    requires calls == []
    ensures Orderly(Turn(Ok(DONE), calls, db)) && OnlyDescribes(calls) && SameColumns(DONE, DONE)
    ensures forall m: string :: Orderly(Failed(m, calls, db))
  {
  }

  lemma SameNone(t: Turn)
    requires t.outcome.Ok? ==> t.outcome.value.resultset.None?
    ensures t.outcome.Ok? ==> SameColumns(t.outcome.value, DONE)
  {
  }

  lemma ShowOrderly(kind: string, describe: bool, db: string, w: World)
    ensures var t, d := ShowTurn(kind, describe, db, w), ShowTurn(kind, true, db, w);
            && Orderly(t) && t.db == db && (describe ==> OnlyDescribes(t.calls))
            && (t.outcome.Ok? ==> d.outcome.Ok? && SameColumns(t.outcome.value, d.outcome.value))
  {
    hide ListTurn, ToUpper;
    ListOrderly("DATABASES", ListDatabases, w.databases, describe, db);
    ListOrderly("TABLES", ListCollections, w.collections, describe, db);
  }

  lemma WritesOrderly(s: Stmt, db: string, w: World)
    requires !s.SelectStmt? && !s.Show? && !s.InsertStmt?
    ensures var t := StmtTurn(s, false, db, w);
            Orderly(t) && (t.outcome.Ok? ==> t.outcome.value.resultset.None?)
  {
    hide FilterText.ScalarFilter, Ddl.SchemaOf, DeleteTable;
  }

  // ------------------------------------------------------------- main theorems

  /** Every statement keeps the rules: reads come first and at most one call
      changes anything, windows are within bounds, and rows have the width of
      their header. */
  lemma StatementOrderly(c: Command, describe: bool, db: string, w: World)
    ensures Orderly(HandleQuery(c, describe, db, w))
  {
    hide StmtTurn, DescribeTurn, IndexesTurn, ListTurn, Orderly;
    SimpleOrderly([], db);
    match c {
      case Parsed(stmt) => StmtOrderly(stmt, describe, db, w);
      case Upsert(parsed) => if parsed.Ok? { StmtOrderly(InsertStmt(parsed.value), false, db, w); }
      case DescribeTable(table) => DescribeOrderly(table, describe, db, w);
      case ShowIndexes(table) => IndexesOrderly(table, describe, db, w);
      case ShowPartitions(table) => ListOrderly("Partition", ListPartitions(table), w.partitions(table), describe, db);
      case Lifecycle(action, table) => ChangedOrderly(ChangeLifecycle(action, table), db, w, DONE);
      case CreateIndex(index) => if index.Ok? { ChangedOrderly(BuildIndex(index.value), db, w, DONE); }
      case DropIndex(name, table) => ChangedOrderly(RemoveIndex(table, name), db, w, DONE);
      case Partition(change, name, table) => ChangedOrderly(ChangePartition(change, table, name), db, w, DONE);
      case _ =>
    }
  }

  /** Describing changes nothing: it asks for one schema at most, and the
      session stays on its database. */
  lemma DescribeReadsOnly(c: Command, db: string, w: World)
    ensures OnlyDescribes(HandleQuery(c, true, db, w).calls)
    ensures HandleQuery(c, true, db, w).db == db
    ensures forall k :: k in HandleQuery(c, true, db, w).calls ==> !Mutates(k)
  {
    hide StmtTurn, DescribeTurn, IndexesTurn, ListTurn;
    match c {
      case Parsed(stmt) => StmtOrderly(stmt, true, db, w);
      case DescribeTable(table) => DescribeOrderly(table, true, db, w);
      case ShowIndexes(table) => IndexesOrderly(table, true, db, w);
      case ShowPartitions(table) => ListOrderly("Partition", ListPartitions(table), w.partitions(table), true, db);
      case _ =>
    }
  }

  /** Describing agrees with executing: if a statement succeeds, describing it
      against the same Milvus succeeds, and announces exactly the columns, names
      and wire types, of the result, unless it is a DESCRIBE of an empty schema. */
  lemma DescribeAgrees(c: Command, db: string, w: World)
    requires HandleQuery(c, false, db, w).outcome.Ok?
    ensures HandleQuery(c, true, db, w).outcome.Ok?
    ensures (SameColumns(HandleQuery(c, false, db, w).outcome.value, HandleQuery(c, true, db, w).outcome.value)
             <==> !(c.DescribeTable? && EmptySchema(c.table, w)))
  {
    hide StmtTurn, DescribeTurn, IndexesTurn, ListTurn, EmptySchema;
    match c {
      case Parsed(stmt) => StmtOrderly(stmt, false, db, w);
      case Upsert(parsed) => UpsertNone(parsed.value, db, w);
      case DescribeTable(table) => DescribeOrderly(table, false, db, w);
      case ShowIndexes(table) => IndexesOrderly(table, false, db, w);
      case ShowPartitions(table) => ListOrderly("Partition", ListPartitions(table), w.partitions(table), false, db);
      case _ =>
    }
  }

  lemma UpsertNone(ins: Insert, db: string, w: World)
    ensures var t := StmtTurn(InsertStmt(ins), false, db, w);
            t.outcome.Ok? ==> SameColumns(t.outcome.value, DONE)
  {
    hide InsertTurn;
    InsertOrderly(ins, db, w);
  }

  /** Nothing is written unless the whole INSERT was validated: any write call a
      statement makes carries exactly the transposed columns of a valid INSERT. */
  lemma WritesAreValidated(ins: Insert, upsert: bool, describe: bool, db: string, w: World)
    ensures var c := if upsert then Upsert(Ok(ins)) else Parsed(InsertStmt(ins));
            forall k :: k in HandleQuery(c, describe, db, w).calls ==> Validated(k, ins, w)
  {
    hide InsertTurn, Validated;
    InsertOrderly(ins, db, w);
  }

  // ------------------------------------------------------- the rows of a SELECT

  lemma TypedExact(outs: seq<Output>, rows: seq<seq<Value>>)
    requires AllWidths(rows, |outs|)
    ensures Typed(outs, rows).Ok?
  {
    if outs == [] {
      assert Headers(outs) == [];
      if rows != [] { assert ColumnsFrom(NamesOf(outs), rows[0], 0) == Ok([]); }
    }
  }

  /** The answer holds, for every row and every projected name in order, the cell
      of that row in the source's column of that name. */
  predicate Answers(r: Result<QueryResult>, src: Source, outs: seq<Output>, count: nat) {
    && (r.Ok? <==> forall i :: 0 <= i < count ==> RowOk(src, NamesOf(outs), i))
    && (r.Ok? ==>
          && r.value.resultset.Some?
          && r.value.resultset.value.columns == Headers(outs)
          && |r.value.resultset.value.rows| == count
          && forall i :: 0 <= i < count ==> IsRow(r.value.resultset.value.rows[i], src, NamesOf(outs), i))
  }

  lemma AssembledAnswers(src: Source, outs: seq<Output>, count: nat)
    ensures var rows := RowsFrom(src, NamesOf(outs), count, 0);
            Answers(if rows.Err? then Err(rows.reason) else Typed(outs, rows.value), src, outs, count)
  {
    hide RowsFrom, CellAt, Typed;
    RowsExact(src, NamesOf(outs), count, 0);
    var rows := RowsFrom(src, NamesOf(outs), count, 0);
    if rows.Ok? {
      forall i | 0 <= i < count ensures IsRow(rows.value[i], src, NamesOf(outs), i) {
        assert IsRow(rows.value[i], src, NamesOf(outs), 0 + i);
      }
      TypedExact(outs, rows.value);
      TypedShape(outs, rows.value);
    }
  }

  /** A query's answer has one row per element of its first column, and fails
      exactly when some cell is missing. */
  lemma QueryAnswers(cols: seq<Col>, outs: seq<Output>)
    requires cols != []
    ensures Answers(QueryRows(cols, outs), FromQuery(cols), outs, |cols[0].values|)
  {
    hide Answers, RowsFrom, Typed;
    AssembledAnswers(FromQuery(cols), outs, |cols[0].values|);
  }

  /** A search's answer has as many rows as were found; `_distance` is the score
      and the primary key falls back on the IDs. */
  lemma SearchAnswers(hits: seq<SearchHit>, outs: seq<Output>, pk: string)
    requires hits != [] && hits[0].error.None?
    ensures Answers(SearchResult(hits, outs, pk), FromSearch(hits[0].cols, hits[0].ids, hits[0].scores, pk), outs,
                    hits[0].count)
  {
    hide Answers, RowsFrom, Typed;
    AssembledAnswers(FromSearch(hits[0].cols, hits[0].ids, hits[0].scores, pk), outs, hits[0].count);
  }
}
