/** The session object: `ClientConn` and its statement handlers, proved to do
    what `ClientSession` says. */
module ClientConnection {
  import opened Prelude
  import opened SqlAst
  import opened Results
  import opened InsertColumns
  import opened SelectRows
  import opened ClientSession
  import opened SessionRules
  import Ddl
  import FilterText
  import Plans = SelectPlan

  class ClientConn {
    var db: string
    var result: Option<QueryResult>
    var describe: bool

    /** The upstream calls made so far, in order. */
    ghost var calls: seq<Call>

    constructor ()
      ensures db == "default" && result == None && !describe && calls == []
    {
      db, result, describe, calls := "default", None, false, [];
    }

    /** A handler that began with the given log and result has ended as `t`. A
        success always leaves a result; a failure leaves the one there was. */
    ghost predicate Ended(t: Turn, error: Option<string>, calls0: seq<Call>, result0: Option<QueryResult>)
      reads this
    {
      && calls == calls0 + t.calls && db == t.db
      && (error.None? ==> result.Some? && t.outcome == Ok(result.value))
      && (error.Some? ==> t.outcome == Err(error.value) && result == result0)
    }

    // ------------------------------------------------------------ the upstream

    /** A call that changes something, then OK with `r`. */
    method Change(c: Call, r: QueryResult, w: World) returns (error: Option<string>)
      modifies this`calls, this`result
      ensures Ended(Changed(c, db, w, r), error, old(calls), old(result))
    {
      calls := calls + [c];
      error := w.change(c);
      if error.None? {
        result := Some(r);
      }
    }

    method GetCollectionSchema(table: string, w: World) returns (r: Result<seq<SchemaField>>)
      modifies this`calls
      ensures r == w.schema(table) && calls == old(calls) + [DescribeCollection(table)]
    {
      calls := calls + [DescribeCollection(table)];
      r := w.schema(table);
    }

    // ------------------------------------------------------------- result sets

    method WriteResultset(r: Result<ResultSet>) returns (error: Option<string>)
      modifies this`result
      ensures Ended(Turn(WithRows(r), [], db), error, calls, old(result))
    {
      assert calls + [] == calls;
      if r.Err? {
        return Some(r.reason);
      }
      result := Some(QueryResult(Some(r.value), 0, 0));
      return None;
    }

    method Rows(names: seq<string>, rows: seq<seq<Value>>) returns (error: Option<string>)
      modifies this`result
      ensures Ended(Turn(ClientSession.Rows(names, rows), [], db), error, calls, old(result))
    {
      var r := BuildLoop([], names, rows);
      error := WriteResultset(r);
    }

    method TypedRows(outs: seq<Output>, rows: seq<seq<Value>>) returns (error: Option<string>)
      modifies this`result
      ensures Ended(Turn(Typed(outs, rows), [], db), error, calls, old(result))
    {
      var r := BuildLoop(Headers(outs), NamesOf(outs), rows);
      error := WriteResultset(r);
    }

    // ------------------------------------------------------------------ SELECT

    method HandleSearch(p: Plans.Plan, fields: seq<SchemaField>, outs: seq<Output>, w: World) returns (error: Option<string>)
      requires p.vectorExpr.Some? && !describe
      modifies this`calls, this`result
      ensures Ended(SearchTurn(p, fields, outs, [], db, w), error, old(calls), old(result))
    {
      hide OutputFields, FieldValue, RowsFrom, Typed, ParamsFor;
      var outputs := OutputLoop(NamesOf(outs), true);
      var v := VectorOf(p, fields, w.data);
      if v.Err? {
        assert calls + [] == calls;
        return Some(v.reason);
      }
      calls := calls + [VectorIndexes(p.table, p.vectorField)];
      assert [] + [VectorIndexes(p.table, p.vectorField)] == [VectorIndexes(p.table, p.vectorField)];
      var indexes := w.vectorIndexes(p.table, p.vectorField);
      if indexes.Err? {
        return Some(indexes.reason);
      }
      var c := SearchCall(p, fields, outputs, indexes.value, v.value);
      if c.Err? {
        return Some(c.reason);
      }
      Assoc(old(calls), [VectorIndexes(p.table, p.vectorField)], [c.value]);
      calls := calls + [c.value];
      var hits := w.search(c.value);
      if hits.Err? {
        return Some(hits.reason);
      }
      error := AssembleSearch(hits.value, outs, fields);
    }

    method AssembleSearch(hits: seq<SearchHit>, outs: seq<Output>, fields: seq<SchemaField>)
      returns (error: Option<string>)
      modifies this`result
      ensures Ended(Turn(SearchResult(hits, outs, PrimaryKey(fields)), [], db), error, calls, old(result))
    {
      hide RowsFrom, Typed;
      assert calls + [] == calls;
      if hits == [] {
        error := TypedRows(outs, []);
        return;
      }
      var hit := hits[0];
      if hit.error.Some? {
        return Some(hit.error.value);
      }
      var pk := PrimaryKeyLoop(fields);
      var rows := RowsLoop(FromSearch(hit.cols, hit.ids, hit.scores, pk), NamesOf(outs), hit.count);
      if rows.Err? {
        return Some(rows.reason);
      }
      error := TypedRows(outs, rows.value);
    }

    static method PrimaryKeyLoop(fields: seq<SchemaField>) returns (pk: string)
      ensures pk == PrimaryKey(fields)
    {
      pk := "";
      for k := 0 to |fields|
        invariant pk == PrimaryKey(fields[..k])
      {
        assert fields[..k + 1][..k] == fields[..k];
        if fields[k].primaryKey {
          pk := fields[k].name;
        }
      }
      assert fields[..|fields|] == fields;
    }

    method HandleScan(p: Plans.Plan, outs: seq<Output>, limited: bool, w: World) returns (error: Option<string>)
      modifies this`calls, this`result
      ensures Ended(QueryTurn(p, outs, limited, [], db, w), error, old(calls), old(result))
    {
      hide OutputFields, RowsFrom, Typed;
      assert calls + [] == calls;
      var names := NamesOf(outs);
      var outputs := OutputLoop(names, false);
      var window := None;
      if |names| != 1 || names[0] != "count(*)" {
        window := Some((p.limit, p.offset));
      } else if limited {
        return Some("LIMIT on count(*) is unsupported");
      }
      var c := RunQuery(p.table, p.filter, outputs, window);
      assert QueryCall(p, names, limited) == Ok(c);
      calls := calls + [c];
      assert [] + [c] == [c];
      var cols := w.query(c);
      if cols.Err? {
        return Some(cols.reason);
      }
      if cols.value == [] {
        error := TypedRows(outs, []);
        return;
      }
      var rows := RowsLoop(FromQuery(cols.value), names, |cols.value[0].values|);
      if rows.Err? {
        return Some(rows.reason);
      }
      error := TypedRows(outs, rows.value);
    }

    /** From the plan on. */
    method RunPlan(s: Select, p: Plans.Plan, w: World) returns (error: Option<string>)
      requires Projectable(s.exprs) && (p.vectorField != "" ==> p.vectorExpr.Some?)
      modifies this`calls, this`result
      ensures Ended(PlannedTurn(s, p, describe, db, w), error, old(calls), old(result))
    {
      hide SearchTurn, QueryTurn, Project, Typed, Projectable, FieldNamed;
      var fields := GetCollectionSchema(p.table, w);
      if fields.Err? {
        return Some(fields.reason);
      }
      if p.vectorField != "" && FieldNamed(fields.value, "_distance").Some? {
        return Some("_distance is reserved");
      }
      var outs := ProjectLoop(s.exprs, fields.value, p.vectorField != "");
      if outs.Err? {
        return Some(outs.reason);
      }
      var first := [DescribeCollection(p.table)];
      if describe || p.limit == 0 {
        error := TypedRows(outs.value, []);
        assert calls + [] == calls;
        return;
      }
      if p.vectorField != "" {
        error := HandleSearch(p, fields.value, outs.value, w);
        SearchPrefix(p, fields.value, outs.value, first, db, w);
        Assoc(old(calls), first, SearchTurn(p, fields.value, outs.value, [], db, w).calls);
      } else {
        error := HandleScan(p, outs.value, s.limit.Some?, w);
        QueryPrefix(p, outs.value, s.limit.Some?, first, db, w);
        Assoc(old(calls), first, QueryTurn(p, outs.value, s.limit.Some?, [], db, w).calls);
      }
    }

    method HandleSelect(s: Select, w: World) returns (error: Option<string>)
      modifies this`calls, this`result
      ensures Ended(SelectTurn(s, describe, db, w), error, old(calls), old(result))
    {
      hide Plans.PlanSelect, PlannedTurn, DualAnswer, Projectable, ClientSession.Rows;
      assert calls + [] == calls;
      var dual := DualAnswer(s, db);
      if dual.Some? {
        error := Rows([dual.value.0], [[dual.value.1]]);
        return;
      }
      var p := Plans.PlanSelectLoop(s, w.printable);
      if p.Err? {
        return Some(p.reason);
      }
      AcceptedProjectable(s, w.printable);
      VectorPresent(s, w.printable);
      error := RunPlan(s, p.value, w);
    }

    // ------------------------------------------------------ INSERT and DELETE

    method HandleInsert(ins: Insert, w: World) returns (error: Option<string>)
      modifies this`calls, this`result
      ensures Ended(InsertTurn(ins, db, w), error, old(calls), old(result))
    {
      hide FillInsertColumns;
      assert calls + [] == calls;
      if ins.qualified || ins.ignore || ins.onDuplicate || ins.partitions {
        return Some("unsupported INSERT clause");
      }
      var fields := GetCollectionSchema(ins.table, w);
      if fields.Err? {
        return Some(fields.reason);
      }
      var columns := FillLoop(fields.value, ins, w.data);
      if columns.Err? {
        return Some(columns.reason);
      }
      var c := if ins.replace then UpsertRows(ins.table, columns.value) else InsertRows(ins.table, columns.value);
      Assoc(old(calls), [DescribeCollection(ins.table)], [c]);
      calls := calls + [c];
      var ids := w.write(c);
      if ids.Err? {
        return Some(ids.reason);
      }
      assert ins.rows.Some? by { FilledRows(fields.value, ins, w.data); }
      var r := QueryResult(None, |ins.rows.value|, 0);
      if ids.value.Some? && ids.value.value.VInt? && ids.value.value.n >= 0 {
        r := r.(insertId := ids.value.value.n);
      }
      result := Some(r);
      return None;
    }

    static method CheckDelete(d: Delete) returns (r: Result<string>)
      ensures r == DeleteTable(d)
    {
      if d.targets || d.partitions || d.limit || d.orderBy || d.where.None? {
        return Err("unsupported DELETE clause");
      }
      if |d.from| != 1 {
        return Err("DELETE requires one collection");
      }
      var a := d.from[0];
      if !a.Aliased? || a.alias != "" || a.hints {
        return Err("unsupported DELETE target");
      }
      if !a.expr.TableName? || a.expr.qualifier != "" {
        return Err("unsupported DELETE target");
      }
      return Ok(a.expr.name);
    }

    method HandleDelete(d: Delete, w: World) returns (error: Option<string>)
      modifies this`calls, this`result
      ensures Ended(DeleteTurn(d, db, w), error, old(calls), old(result))
    {
      hide FilterText.ScalarFilter, Changed, DeleteTable;
      assert calls + [] == calls;
      var table := CheckDelete(d);
      if table.Err? {
        return Some(table.reason);
      }
      assert d.where.Some? by { DeleteHasWhere(d); }
      var filter := FilterText.ScalarFilter(d.where.value, w.printable);
      if filter.Err? {
        return Some(filter.reason);
      }
      error := Change(DeleteRows(table.value, filter.value), DONE, w);
    }

    // ----------------------------------------------------- the other statements

    method HandleList(title: string, c: Call, answer: Result<seq<string>>) returns (error: Option<string>)
      modifies this`calls, this`result
      ensures Ended(ListTurn(title, c, answer, describe, db), error, old(calls), old(result))
    {
      hide ClientSession.Rows;
      if describe {
        error := Rows([title], []);
        return;
      }
      calls := calls + [c];
      assert calls + [] == calls;
      if answer.Err? {
        return Some(answer.reason);
      }
      var rows: seq<seq<Value>> := [];
      for k := 0 to |answer.value|
        invariant rows == TextRows(answer.value[..k])
      {
        assert answer.value[..k + 1] == answer.value[..k] + [answer.value[k]];
        rows := rows + [[VText(answer.value[k])]];
      }
      assert answer.value[..|answer.value|] == answer.value;
      error := Rows([title], rows);
    }

    method HandleShow(kind: string, w: World) returns (error: Option<string>)
      modifies this`calls, this`result
      ensures Ended(ShowTurn(kind, describe, db, w), error, old(calls), old(result))
    {
      hide ListTurn, ToUpper;
      if ToUpper(kind) == "DATABASES" {
        error := HandleList("DATABASES", ListDatabases, w.databases);
      } else if ToUpper(kind) == "TABLES" {
        error := HandleList("TABLES", ListCollections, w.collections);
      } else {
        assert calls + [] == calls;
        error := Some("show not supported");
      }
    }

    method HandleUse(name: string, w: World) returns (error: Option<string>)
      modifies this`calls, this`result, this`db
      ensures Ended(UseTurn(name, old(db), w), error, old(calls), old(result))
    {
      error := Change(UsingDatabase(name), DONE, w);
      if error.None? {
        db := name;
      }
    }

    method HandleDdl(s: Stmt, w: World) returns (error: Option<string>)
      requires (s.DatabaseDdl? || s.CreateTable? || s.DropTable? || s.OtherDdl?) && !describe
      modifies this`calls, this`result
      ensures Ended(StmtTurn(s, false, db, w), error, old(calls), old(result))
    {
      hide Ddl.SchemaOf, Changed;
      assert calls + [] == calls;
      match s {
        case DatabaseDdl(Create, name) => error := Change(CreateDatabase(name), QueryResult(None, 1, 0), w);
        case DatabaseDdl(Drop, name) => error := Change(DropDatabase(name), DONE, w);
        case DatabaseDdl(OtherAction, _) => error := Some("statement not supported");
        case CreateTable(t) =>
          var fields := Ddl.DdlToSchema(t);
          if fields.Err? {
            return Some(fields.reason);
          }
          error := Change(CreateCollection(t.name, fields.value), DONE, w);
        case DropTable(name, qualified, ifExists) =>
          if qualified || ifExists {
            return Some("unsupported DROP clause");
          }
          error := Change(DropCollection(name), DONE, w);
        case _ => error := Some("ddl not supported");
      }
    }

    method WriteOk()
      modifies this`result
      ensures Ended(Turn(Ok(DONE), [], db), None, calls, old(result))
    {
      assert calls + [] == calls;
      result := Some(DONE);
    }

    method HandleStmt(s: Stmt, w: World) returns (error: Option<string>)
      modifies this`calls, this`result, this`db
      ensures Ended(StmtTurn(s, describe, old(db), w), error, old(calls), old(result))
    {
      hide SelectTurn, InsertTurn, DeleteTurn, DatabaseTurn, CreateTurn, DropTurn, ShowTurn, UseTurn;
      if describe && !s.SelectStmt? && !s.Show? {
        WriteOk();
        return None;
      }
      match s {
        case Show(kind) => error := HandleShow(kind, w);
        case SelectStmt(select) => error := HandleSelect(select, w);
        case InsertStmt(insert) => error := HandleInsert(insert, w);
        case DeleteStmt(delete) => error := HandleDelete(delete, w);
        case Use(name) => error := HandleUse(name, w);
        case OtherStmt =>
          assert calls + [] == calls;
          error := Some("statement is not supported");
        case _ => error := HandleDdl(s, w);
      }
    }

    method HandleDescribe(table: string, w: World) returns (error: Option<string>)
      modifies this`calls, this`result
      ensures Ended(DescribeTurn(table, describe, db, w), error, old(calls), old(result))
    {
      hide ClientSession.Rows;
      if describe {
        var header := Untyped(DESCRIBE_NAMES);
        header := header[2 := ResultColumn("PrimaryKey", Tiny)];
        header := header[3 := ResultColumn("AutoID", Tiny)];
        error := WriteResultset(Ok(ResultSet(header, [])));
        return;
      }
      var fields := GetCollectionSchema(table, w);
      if fields.Err? {
        return Some(fields.reason);
      }
      var rows: seq<seq<Value>> := [];
      for k := 0 to |fields.value|
        invariant rows == FieldRows(fields.value[..k], w)
      {
        assert fields.value[..k + 1] == fields.value[..k] + [fields.value[k]];
        rows := rows + [FieldRow(fields.value[k], w)];
      }
      assert fields.value[..|fields.value|] == fields.value;
      error := Rows(DESCRIBE_NAMES, rows);
      assert calls + [] == calls;
    }

    method HandleIndexes(table: string, w: World) returns (error: Option<string>)
      modifies this`calls, this`result
      ensures Ended(IndexesTurn(table, describe, db, w), error, old(calls), old(result))
    {
      hide ClientSession.Rows;
      if describe {
        error := Rows(INDEX_NAMES, []);
        return;
      }
      calls := calls + [ListIndexes(table)];
      assert calls + [] == calls;
      var indexes := w.indexes(table);
      if indexes.Err? {
        return Some(indexes.reason);
      }
      error := Rows(INDEX_NAMES, IndexRows(indexes.value, w));
    }

    /** `handleQuery` with `handleMilvusCommand`. */
    method HandleQuery(c: Command, w: World) returns (error: Option<string>)
      modifies this`calls, this`result, this`db
      ensures Ended(ClientSession.HandleQuery(c, describe, old(db), w), error, old(calls), old(result))
    {
      hide StmtTurn, DescribeTurn, IndexesTurn, ListTurn, Changed;
      assert calls + [] == calls;
      match c {
        case EmptyText => error := Some("empty SQL statement");
        case Invalid(reason) => error := Some(reason);
        case DescribeTable(table) => error := HandleDescribe(table, w);
        case ShowIndexes(table) => error := HandleIndexes(table, w);
        case ShowPartitions(table) => error := HandleList("Partition", ListPartitions(table), w.partitions(table));
        case Parsed(stmt) => error := HandleStmt(stmt, w);
        case _ =>
          if describe {
            WriteOk();
            return None;
          }
          error := HandleCommand(c, w);
      }
    }

    /** The commands that change something, executed. */
    method HandleCommand(c: Command, w: World) returns (error: Option<string>)
      requires !describe
      requires c.Upsert? || c.Lifecycle? || c.CreateIndex? || c.DropIndex? || c.Partition?
      modifies this`calls, this`result, this`db
      ensures Ended(ClientSession.HandleQuery(c, false, old(db), w), error, old(calls), old(result))
    {
      hide StmtTurn, Changed;
      assert calls + [] == calls;
      match c {
        case Upsert(parsed) =>
          if parsed.Err? {
            return Some(parsed.reason);
          }
          error := HandleStmt(InsertStmt(parsed.value), w);
        case Lifecycle(action, table) => error := Change(ChangeLifecycle(action, table), DONE, w);
        case CreateIndex(index) =>
          if index.Err? {
            return Some(index.reason);
          }
          error := Change(BuildIndex(index.value), DONE, w);
        case DropIndex(name, table) => error := Change(RemoveIndex(table, name), DONE, w);
        case Partition(change, name, table) => error := Change(ChangePartition(change, table, name), DONE, w);
      }
    }

    // ---------------------------------------------------- Execute and Describe

    /** Whatever was left by an earlier statement, the answer is this one's, and
        a success always has a result. */
    method Execute(c: Command, w: World) returns (r: Result<QueryResult>)
      modifies this`calls, this`result, this`db
      ensures var t := ClientSession.HandleQuery(c, describe, old(db), w);
              r == t.outcome && calls == old(calls) + t.calls && db == t.db
      ensures result == if r.Ok? then Some(r.value) else None
    {
      hide ClientSession.HandleQuery;
      result := None;
      var error := HandleQuery(c, w);
      if error.Some? {
        return Err(error.value);
      }
      // The fallback to an empty result is never needed: a success leaves one.
      return Ok(result.value);
    }

    /** Describing leaves the session executing again, on the same database,
        having asked for at most a schema. */
    method Describe(c: Command, w: World) returns (r: Result<QueryResult>)
      modifies this
      ensures var t := ClientSession.HandleQuery(c, true, old(db), w);
              r == t.outcome && calls == old(calls) + t.calls && OnlyDescribes(t.calls)
      ensures !describe && db == old(db)
      ensures result == if r.Ok? then Some(r.value) else None
    {
      hide ClientSession.HandleQuery, OnlyDescribes;
      DescribeReadsOnly(c, db, w);
      describe := true;
      r := Execute(c, w);
      describe := false;
    }
  }

  lemma FilledRows(fields: seq<SchemaField>, ins: Insert, lib: DataLib)
    requires FillInsertColumns(fields, ins, lib).Ok?
    ensures ins.rows.Some?
  {
  }

  lemma DeleteHasWhere(d: Delete)
    requires DeleteTable(d).Ok?
    ensures d.where.Some?
  {
  }

  lemma SearchPrefix(p: Plans.Plan, fields: seq<SchemaField>, outs: seq<Output>, first: seq<Call>, db: string, w: World)
    requires p.vectorExpr.Some?
    ensures var t := SearchTurn(p, fields, outs, [], db, w);
            SearchTurn(p, fields, outs, first, db, w) == t.(calls := first + t.calls)
  {
    hide SearchResult, SearchCall, OutputFields, VectorOf;
    assert first + [] == first;
    var described := [VectorIndexes(p.table, p.vectorField)];
    assert [] + described == described;
    forall c: Call ensures (first + described) + [c] == first + (described + [c]) {
    }
  }

  lemma QueryPrefix(p: Plans.Plan, outs: seq<Output>, limited: bool, first: seq<Call>, db: string, w: World)
    ensures var t := QueryTurn(p, outs, limited, [], db, w);
            QueryTurn(p, outs, limited, first, db, w) == t.(calls := first + t.calls)
  {
    hide QueryRows, QueryCall;
    assert first + [] == first;
    forall c: Call ensures [] + [c] == [c] {
    }
  }
}
