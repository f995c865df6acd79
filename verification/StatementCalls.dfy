/** The statements that are one call to Milvus or none: what each asks for, whether
    it succeeds and what it answers. */
module StatementCalls {
  import opened Prelude
  import opened SqlAst
  import opened Results
  import opened InsertColumns
  import opened SelectRows
  import opened ClientSession
  import opened SessionRules
  import opened StatementMeaning
  import Ddl

  /** SELECT, INSERT, REPLACE, UPSERT and DELETE reach their handlers. */
  lemma Dispatched(s: Select, ins: Insert, d: Delete, describe: bool, db: string, w: World)
    ensures HandleQuery(Parsed(SelectStmt(s)), describe, db, w) == SelectTurn(s, describe, db, w)
    ensures HandleQuery(Parsed(InsertStmt(ins)), false, db, w) == InsertTurn(ins, db, w)
    ensures HandleQuery(Upsert(Ok(ins)), false, db, w) == InsertTurn(ins, db, w)
    ensures HandleQuery(Parsed(DeleteStmt(d)), false, db, w) == DeleteTurn(d, db, w)
  {
    hide SelectTurn, InsertTurn, DeleteTurn;
  }

  // ---------------------------------------------------------- changing statements

  /** The one call a statement stands for, DELETE apart. */
  function Stands(c: Command): Option<Call> {
    match c
    case Lifecycle(LoadTable, t) => Some(ChangeLifecycle(LoadTable, t))
    case Lifecycle(ReleaseTable, t) => Some(ChangeLifecycle(ReleaseTable, t))
    case Lifecycle(FlushTable, t) => Some(ChangeLifecycle(FlushTable, t))
    case Partition(CreatePartition, p, t) => Some(ChangePartition(CreatePartition, t, p))
    case Partition(DropPartition, p, t) => Some(ChangePartition(DropPartition, t, p))
    case Partition(LoadPartition, p, t) => Some(ChangePartition(LoadPartition, t, p))
    case Partition(ReleasePartition, p, t) => Some(ChangePartition(ReleasePartition, t, p))
    case CreateIndex(Ok(request)) => Some(BuildIndex(request))
    case DropIndex(name, t) => Some(RemoveIndex(t, name))
    case Parsed(DatabaseDdl(Create, name)) => Some(CreateDatabase(name))
    case Parsed(DatabaseDdl(Drop, name)) => Some(DropDatabase(name))
    case Parsed(CreateTable(t)) =>
      if Ddl.SchemaOf(t).Ok? then Some(CreateCollection(t.name, Ddl.SchemaOf(t).value)) else None
    case Parsed(DropTable(name, false, false)) => Some(DropCollection(name))
    case Parsed(Use(name)) => Some(UsingDatabase(name))
    case _ => None
  }

  /** The statements that are refused without a call. */
  predicate Refused(c: Command) {
    match c
    case EmptyText => true
    case Invalid(_) => true
    case Upsert(parsed) => parsed.Err?
    case CreateIndex(index) => index.Err?
    case Parsed(stmt) =>
      (match stmt
       case DatabaseDdl(OtherAction, _) => true
       case CreateTable(t) => Ddl.SchemaOf(t).Err?
       case DropTable(_, qualified, ifExists) => qualified || ifExists
       case Show(kind) => ToUpper(kind) != "DATABASES" && ToUpper(kind) != "TABLES"
       case OtherDdl => true
       case OtherStmt => true
       case _ => false)
    case _ => false
  }

  /** A statement that stands for a call makes it, once, succeeds exactly if Milvus
      accepts it, and moves the session to another database only for a USE that
      succeeds; a refused statement makes no call and fails. */
  lemma OneCallStatements(c: Command, db: string, w: World)
    ensures var t := HandleQuery(c, false, db, w);
            && (Stands(c).Some? ==>
                  && OneCall(t, Stands(c).value,
                             QueryResult(None, if c.Parsed? && c.stmt.DatabaseDdl? && c.stmt.action == Create then 1 else 0, 0), w)
                  && t.db == if c.Parsed? && c.stmt.Use? && t.outcome.Ok? then c.stmt.db else db)
            && (Refused(c) ==> t.calls == [] && t.outcome.Err? && t.db == db)
  {
    hide Ddl.SchemaOf, SelectTurn, InsertTurn, DeleteTurn, ToUpper, ListTurn;
  }

  /** The collection a CREATE TABLE stands for has a field per column, in order, and
      there is one exactly if the definition is valid. */
  lemma CreatesExactly(t: Ddl.Table)
    ensures Stands(Parsed(CreateTable(t))).Some? <==> Ddl.ValidTable(t)
    ensures Ddl.ValidTable(t) ==>
              var c := Stands(Parsed(CreateTable(t))).value;
              && c.CreateCollection? && c.table == t.name && |c.fields| == |t.spec.value.columns|
              && forall k :: 0 <= k < |c.fields| ==> Ddl.FieldOf(t.spec.value.columns[k]) == Ok(c.fields[k])
  {
    hide Ddl.SchemaOf, Ddl.ValidTable, Ddl.GoodSchema, Ddl.FieldOf;
    Ddl.SchemaAccepted(t);
    if Ddl.SchemaOf(t).Ok? {
      Specified(t);
      Ddl.FieldsExact(t.spec.value.columns);
    }
  }

  lemma Specified(t: Ddl.Table)
    requires Ddl.SchemaOf(t).Ok?
    ensures t.spec.Some?
  {
  }

  // ------------------------------------------------------------ reading statements

  /** `r` lists `names` under a title, as text. */
  predicate Lists(r: Result<QueryResult>, title: string, names: seq<string>) {
    && r.Ok? && r.value.resultset.Some?
    && r.value.resultset.value.columns == [ResultColumn(title, VarString)]
    && |r.value.resultset.value.rows| == |names|
    && forall k :: 0 <= k < |names| ==> r.value.resultset.value.rows[k] == [VText(names[k])]
  }

  predicate Listed(t: Turn, title: string, c: Call, answer: Result<seq<string>>, db: string) {
    && t.calls == [c] && t.db == db
    && match answer case Err(m) => t.outcome == Err(m) case Ok(names) => Lists(t.outcome, title, names)
  }

  lemma ListExact(title: string, c: Call, answer: Result<seq<string>>, db: string)
    ensures Listed(ListTurn(title, c, answer, false, db), title, c, answer, db)
  {
    hide Rows;
    if answer.Ok? {
      var rows := TextRows(answer.value);
      RowsExist([title], rows);
      RowsShape([title], rows);
      if rows != [] { TextColumns([title], rows); }
      assert Untyped([title]) == [ResultColumn(title, VarString)];
    }
  }

  lemma RowsExist(names: seq<string>, rows: seq<seq<Value>>)
    requires forall i :: 0 <= i < |rows| ==> |rows[i]| == |names|
    requires rows != [] ==> forall k :: 0 <= k < |rows[0]| ==> !rows[0][k].VOther?
    ensures Rows(names, rows).Ok?
  {
    hide BuildResultset;
    BuildAccepted([], names, rows);
  }

  /** SHOW lists what Milvus lists: databases, collections or a collection's
      partitions. */
  lemma ShowsExactly(table: string, kind: string, db: string, w: World)
    ensures ToUpper(kind) == "DATABASES" ==>
              Listed(HandleQuery(Parsed(Show(kind)), false, db, w), "DATABASES", ListDatabases, w.databases, db)
    ensures ToUpper(kind) == "TABLES" ==>
              Listed(HandleQuery(Parsed(Show(kind)), false, db, w), "TABLES", ListCollections, w.collections, db)
    ensures Listed(HandleQuery(ShowPartitions(table), false, db, w), "Partition", ListPartitions(table), w.partitions(table), db)
  {
    hide ListTurn, Listed, ToUpper;
    ListExact("DATABASES", ListDatabases, w.databases, db);
    ListExact("TABLES", ListCollections, w.collections, db);
    ListExact("Partition", ListPartitions(table), w.partitions(table), db);
    assert "DATABASES" != "TABLES" by { assert "DATABASES"[0] == 'D' && "TABLES"[0] == 'T'; }
  }

  /** A row of DESCRIBE, and one of SHOW INDEXES. */
  predicate Describes(row: seq<Value>, f: SchemaField, w: World) {
    row == [VText(f.name), VText(w.typeName(f.kind)), VBool(f.primaryKey), VBool(f.autoId), VText(w.json(f.params))]
  }

  predicate Indexes(row: seq<Value>, i: Index, w: World) {
    row == [VText(i.name), VText(i.kind), VText(w.json(i.params))]
  }

  predicate HasRows(r: Result<QueryResult>, names: seq<string>, n: nat) {
    && r.Ok? && r.value.resultset.Some? && |r.value.resultset.value.rows| == n
    && |r.value.resultset.value.columns| == |names|
    && forall k :: 0 <= k < |names| ==> r.value.resultset.value.columns[k].name == names[k]
  }

  /** DESCRIBE reads the schema and answers a row per field. */
  lemma DescribesExactly(table: string, db: string, w: World)
    ensures var t := HandleQuery(DescribeTable(table), false, db, w);
            && t.calls == [DescribeCollection(table)] && t.db == db
            && match w.schema(table)
               case Err(m) => t.outcome == Err(m)
               case Ok(fields) =>
                 && HasRows(t.outcome, ["Field", "Type", "PrimaryKey", "AutoID", "Parameters"], |fields|)
                 && forall k :: 0 <= k < |fields| ==> Describes(t.outcome.value.resultset.value.rows[k], fields[k], w)
  {
    hide Rows;
    if w.schema(table).Ok? {
      var rows := FieldRows(w.schema(table).value, w);
      RowsExist(DESCRIBE_NAMES, rows);
      RowsShape(DESCRIBE_NAMES, rows);
    }
  }

  /** SHOW INDEXES lists a collection's indexes, a row for each. */
  lemma IndexesExactly(table: string, db: string, w: World)
    ensures var t := HandleQuery(ShowIndexes(table), false, db, w);
            && t.calls == [ListIndexes(table)] && t.db == db
            && match w.indexes(table)
               case Err(m) => t.outcome == Err(m)
               case Ok(indexes) =>
                 && HasRows(t.outcome, ["Name", "Type", "Parameters"], |indexes|)
                 && forall k :: 0 <= k < |indexes| ==> Indexes(t.outcome.value.resultset.value.rows[k], indexes[k], w)
  {
    hide Rows;
    if w.indexes(table).Ok? {
      var rows := IndexRows(w.indexes(table).value, w);
      RowsExist(INDEX_NAMES, rows);
      RowsShape(INDEX_NAMES, rows);
    }
  }

  /** `select <e>` of `dual`. */
  function Constant(e: Expr): Select {
    Select(false, false, false, false, false, [Projection(e, "")], [Aliased(TableName("", "dual"), "", false)], None, None)
  }

  /** Exactly the constants are answered without Milvus: 1, `version()`, `database()`
      and `current_database()`. */
  lemma ConstantsOnly(s: Select, db: string)
    ensures (DualAnswer(s, db).Some?
             <==> && |s.exprs| == 1 && s.exprs[0].Projection? && s == Constant(s.exprs[0].expr)
                  && IsConstant(s.exprs[0].expr))
  {
    hide EqualFold;
    if |s.exprs| == 1 { assert s.exprs == [s.exprs[0]]; }
  }

  predicate IsConstant(e: Expr) {
    || e == Literal(IntVal, "1")
    || (&& e.Func? && e.args == []
        && (EqualFold(e.name, "version") || EqualFold(e.name, "database") || EqualFold(e.name, "current_database")))
  }

  predicate AnswersOne(t: Turn, title: string, v: Value, kind: ColumnType) {
    t.calls == [] && t.outcome == Ok(QueryResult(Some(ResultSet([ResultColumn(title, kind)], [[v]])), 0, 0))
  }

  lemma OneRow(title: string, v: Value)
    requires !v.VOther?
    ensures Rows([title], [[v]]) == Ok(QueryResult(Some(ResultSet([ResultColumn(title, FormatKind(v).value)], [[v]])), 0, 0))
  {
    hide FormatKind, BuildResultset;
    RowsExist([title], [[v]]);
    RowsShape([title], [[v]]);
    var columns := Rows([title], [[v]]).value.resultset.value.columns;
    assert columns == [columns[0]];
  }

  /** The constants a client asks for on connecting are answered without Milvus, the
      database being the session's. */
  lemma ConstantsAnswered(name: string, describe: bool, db: string, w: World)
    ensures AnswersOne(SelectTurn(Constant(Literal(IntVal, "1")), describe, db, w), "1", VInt(1), LongLong)
    ensures EqualFold(name, "version") ==>
              AnswersOne(SelectTurn(Constant(Func(name, [])), describe, db, w), "version", VText("milvus-sql-proxy"), VarString)
    ensures EqualFold(name, "database") || EqualFold(name, "current_database") ==>
              AnswersOne(SelectTurn(Constant(Func(name, [])), describe, db, w), "database", VText(db), VarString)
  {
    hide EqualFold, Rows;
    OneRow("1", VInt(1));
    OneRow("version", VText("milvus-sql-proxy"));
    OneRow("database", VText(db));
    VersionIsNoDatabase(name);
    assert DualAnswer(Constant(Literal(IntVal, "1")), db) == Some(("1", VInt(1)));
  }

  lemma VersionIsNoDatabase(name: string)
    ensures EqualFold(name, "database") || EqualFold(name, "current_database") ==> !EqualFold(name, "version")
  {
    assert |ToLower("version")| == 7 && |ToLower("database")| == 8 && |ToLower("current_database")| == 16;
  }
}
