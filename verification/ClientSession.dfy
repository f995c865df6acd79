/** One SQL statement of a session: which upstream calls it makes, in order, and
    what it answers, when executed and when only described. */
module ClientSession {
  import opened Prelude
  import opened SqlAst
  import opened Results
  import opened InsertColumns
  import opened SelectRows
  import Ddl
  import FilterText
  import Plans = SelectPlan

  datatype LifecycleAction = LoadTable | ReleaseTable | FlushTable

  datatype PartitionAction = CreatePartition | DropPartition | LoadPartition | ReleasePartition

  datatype IndexRequest = IndexRequest(table: string, field: string, name: string, params: map<string, string>)

  datatype Delete = Delete(
    targets: bool, partitions: bool, limit: bool, orderBy: bool, where: Option<Expr>, from: seq<TableExpr>)

  datatype DdlAction = Create | Drop | OtherAction

  /** What the SQL parser returns. */
  datatype Stmt =
    | Show(kind: string)
    | DatabaseDdl(action: DdlAction, db: string)
    | CreateTable(table: Ddl.Table)
    | DropTable(name: string, qualified: bool, ifExists: bool)
    | OtherDdl
    | SelectStmt(select: Select)
    | InsertStmt(insert: Insert)
    | DeleteStmt(delete: Delete)
    | Use(db: string)
    | OtherStmt

  /** A statement text, once the regular expressions and the parser have
      classified it. UPSERT is rewritten to REPLACE before parsing; `index` is the
      outcome of checking the options of a CREATE INDEX. */
  datatype Command =
    | EmptyText
    | Invalid(reason: string)
    | Upsert(parsed: Result<Insert>)
    | Lifecycle(action: LifecycleAction, table: string)
    | DescribeTable(table: string)
    | CreateIndex(index: Result<IndexRequest>)
    | DropIndex(name: string, table: string)
    | ShowIndexes(table: string)
    | Partition(change: PartitionAction, name: string, table: string)
    | ShowPartitions(table: string)
    | Parsed(stmt: Stmt)

  datatype SearchParams = NoParams | Ef(ef: int) | Nprobe(n: int)

  datatype Call =
    // reads
    | DescribeCollection(table: string)
    | ListIndexes(table: string)
    | VectorIndexes(table: string, field: string)
    | ListDatabases
    | ListCollections
    | ListPartitions(table: string)
    | RunQuery(table: string, filter: string, outputs: seq<string>, window: Option<(int, int)>)
    | RunSearch(table: string, filter: string, outputs: seq<string>, vector: Cell, field: string, metric: string,
                limit: int, params: SearchParams, offset: int)
    // changes
    | InsertRows(table: string, columns: seq<MilvusColumn>)
    | UpsertRows(table: string, columns: seq<MilvusColumn>)
    | DeleteRows(table: string, filter: string)
    | CreateCollection(table: string, fields: seq<SchemaField>)
    | DropCollection(table: string)
    | CreateDatabase(db: string)
    | DropDatabase(db: string)
    | BuildIndex(request: IndexRequest)
    | RemoveIndex(table: string, name: string)
    | ChangePartition(change: PartitionAction, table: string, name: string)
    | ChangeLifecycle(action: LifecycleAction, table: string)
    | UsingDatabase(db: string)

  predicate Mutates(c: Call) {
    match c
    case DescribeCollection(_) => false
    case ListIndexes(_) => false
    case VectorIndexes(_, _) => false
    case ListDatabases => false
    case ListCollections => false
    case ListPartitions(_) => false
    case RunQuery(_, _, _, _) => false
    case RunSearch(_, _, _, _, _, _, _, _, _) => false
    case _ => true
  }

  datatype Index = Index(name: string, kind: string, params: map<string, string>)

  datatype SearchHit = SearchHit(error: Option<string>, cols: seq<Col>, ids: Option<Col>, scores: seq<Value>, count: nat)

  /** Everything outside the session: what Milvus answers to each call, and the
      library functions whose results only pass through. */
  datatype World = World(
    schema: string -> Result<seq<SchemaField>>,
    indexes: string -> Result<seq<Index>>,
    vectorIndexes: (string, string) -> Result<seq<Index>>,
    databases: Result<seq<string>>,
    collections: Result<seq<string>>,
    partitions: string -> Result<seq<string>>,
    query: Call -> Result<seq<Col>>,
    search: Call -> Result<seq<SearchHit>>,
    change: Call -> Option<string>,
    write: Call -> Result<Option<Value>>,
    data: DataLib,
    printable: char -> bool,
    typeName: FieldType -> string,
    json: map<string, string> -> string)

  /** A statement's outcome, the upstream calls it made, and the database the
      session is on afterwards. */
  datatype Turn = Turn(outcome: Result<QueryResult>, calls: seq<Call>, db: string)

  function Failed(reason: string, calls: seq<Call>, db: string): Turn {
    Turn(Err(reason), calls, db)
  }

  function WithRows(r: Result<ResultSet>): Result<QueryResult> {
    match r case Err(m) => Err(m) case Ok(rs) => Ok(QueryResult(Some(rs), 0, 0))
  }

  /** `c.rows`: a result whose types come from its first row. */
  function Rows(names: seq<string>, rows: seq<seq<Value>>): Result<QueryResult> {
    WithRows(BuildResultset([], names, rows))
  }

  function Changed(c: Call, db: string, w: World, r: QueryResult): Turn {
    match w.change(c) case Some(e) => Failed(e, [c], db) case None => Turn(Ok(r), [c], db)
  }

  // ------------------------------------------------------------------- SELECT

  function DualRow(e: SelectExpr, db: string): Option<(string, Value)> {
    if !e.Projection? || e.alias != "" then None
    else if e.expr == Literal(IntVal, "1") then Some(("1", VInt(1)))
    else if !e.expr.Func? || e.expr.args != [] then None
    else if EqualFold(e.expr.name, "version") then Some(("version", VText("milvus-sql-proxy")))
    else if EqualFold(e.expr.name, "database") || EqualFold(e.expr.name, "current_database") then
      Some(("database", VText(db)))
    else None
  }

  /** The SELECTs answered without Milvus. */
  function DualAnswer(s: Select, db: string): Option<(string, Value)> {
    if s.from == [Aliased(TableName("", "dual"), "", false)] && s.where.None? && s.limit.None?
       && !s.distinct && !s.groupBy && !s.having && !s.orderBy && !s.locking && |s.exprs| == 1
    then DualRow(s.exprs[0], db)
    else None
  }

  /** The last primary key of a schema, or "". */
  function PrimaryKey(fields: seq<SchemaField>): string {
    if fields == [] then ""
    else if fields[|fields| - 1].primaryKey then fields[|fields| - 1].name
    else PrimaryKey(fields[..|fields| - 1])
  }

  function Typed(outs: seq<Output>, rows: seq<seq<Value>>): Result<QueryResult> {
    WithRows(BuildResultset(Headers(outs), NamesOf(outs), rows))
  }

  function ParamsFor(kind: string, limit: int, offset: int): SearchParams {
    if ToUpper(kind) == "HNSW" then
      var ef := Plans.Add64(limit, offset);
      Ef(if ef < 64 then 64 else ef)
    else if ToUpper(kind) in {"IVF_FLAT", "IVF_SQ8", "IVF_PQ"} then Nprobe(16)
    else NoParams
  }

  /** The search of a plan, or why there is none. */
  function SearchCall(p: Plans.Plan, fields: seq<SchemaField>, outputs: seq<string>, indexes: seq<Index>, v: Cell)
    : Result<Call>
  {
    if indexes == [] then Err("vector field has no index")
    else
      var metric := if "metric_type" in indexes[0].params then indexes[0].params["metric_type"] else "";
      if metric == "" then Err("vector index has no metric_type")
      else Ok(RunSearch(p.table, p.filter, outputs, v, p.vectorField, metric, p.limit,
                        ParamsFor(indexes[0].kind, p.limit, p.offset), p.offset))
  }

  function SearchResult(hits: seq<SearchHit>, outs: seq<Output>, pk: string): Result<QueryResult> {
    if hits == [] then Typed(outs, [])
    else if hits[0].error.Some? then Err(hits[0].error.value)
    else
      var hit := hits[0];
      match RowsFrom(FromSearch(hit.cols, hit.ids, hit.scores, pk), NamesOf(outs), hit.count, 0)
      case Err(m) => Err(m)
      case Ok(rows) => Typed(outs, rows)
  }

  function VectorOf(p: Plans.Plan, fields: seq<SchemaField>, lib: DataLib): Result<Cell>
    requires p.vectorExpr.Some?
  {
    match FieldNamed(fields, p.vectorField)
    case None => Err("search requires a FLOAT_VECTOR field")
    case Some(f) =>
      if f.kind != FFloatVector then Err("search requires a FLOAT_VECTOR field")
      else FieldValue(f, p.vectorExpr.value, lib)
  }

  /** `calls` are those already made. */
  function SearchTurn(p: Plans.Plan, fields: seq<SchemaField>, outs: seq<Output>, calls: seq<Call>, db: string, w: World)
    : Turn
    requires p.vectorExpr.Some?
  {
    match VectorOf(p, fields, w.data)
    case Err(m) => Failed(m, calls, db)
    case Ok(v) =>
      var described := calls + [VectorIndexes(p.table, p.vectorField)];
      match w.vectorIndexes(p.table, p.vectorField)
      case Err(m) => Failed(m, described, db)
      case Ok(indexes) =>
        match SearchCall(p, fields, OutputFields(NamesOf(outs), true), indexes, v)
        case Err(m) => Failed(m, described, db)
        case Ok(c) =>
          match w.search(c)
          case Err(m) => Failed(m, described + [c], db)
          case Ok(hits) => Turn(SearchResult(hits, outs, PrimaryKey(fields)), described + [c], db)
  }

  function QueryCall(p: Plans.Plan, names: seq<string>, limited: bool): Result<Call> {
    if names == ["count(*)"] then
      if limited then Err("LIMIT on count(*) is unsupported")
      else Ok(RunQuery(p.table, p.filter, OutputFields(names, false), None))
    else Ok(RunQuery(p.table, p.filter, OutputFields(names, false), Some((p.limit, p.offset))))
  }

  function QueryRows(cols: seq<Col>, outs: seq<Output>): Result<QueryResult> {
    if cols == [] then Typed(outs, [])
    else match RowsFrom(FromQuery(cols), NamesOf(outs), |cols[0].values|, 0)
      case Err(m) => Err(m)
      case Ok(rows) => Typed(outs, rows)
  }

  function QueryTurn(p: Plans.Plan, outs: seq<Output>, limited: bool, calls: seq<Call>, db: string, w: World): Turn {
    match QueryCall(p, NamesOf(outs), limited)
    case Err(m) => Failed(m, calls, db)
    case Ok(c) =>
      match w.query(c)
      case Err(m) => Failed(m, calls + [c], db)
      case Ok(cols) => Turn(QueryRows(cols, outs), calls + [c], db)
  }

  /** The columns of an accepted SELECT over a schema. */
  function Columns(s: Select, p: Plans.Plan, fields: seq<SchemaField>): Result<seq<Output>>
    requires Projectable(s.exprs)
  {
    if p.vectorField != "" && FieldNamed(fields, "_distance").Some? then
      Err("_distance is reserved")
    else Project(s.exprs, fields, p.vectorField != "")
  }

  function SelectTurn(s: Select, describe: bool, db: string, w: World): Turn {
    if DualAnswer(s, db).Some? then
      var (name, value) := DualAnswer(s, db).value;
      Turn(Rows([name], [[value]]), [], db)
    else match Plans.PlanSelect(s, w.printable)
      case Err(m) => Failed(m, [], db)
      case Ok(p) =>
        AcceptedProjectable(s, w.printable);
        VectorPresent(s, w.printable);
        PlannedTurn(s, p, describe, db, w)
  }

  function PlannedTurn(s: Select, p: Plans.Plan, describe: bool, db: string, w: World): Turn
    requires Projectable(s.exprs) && (p.vectorField != "" ==> p.vectorExpr.Some?)
  {
    var calls := [DescribeCollection(p.table)];
    match w.schema(p.table)
    case Err(m) => Failed(m, calls, db)
    case Ok(fields) =>
      match Columns(s, p, fields)
      case Err(m) => Failed(m, calls, db)
      case Ok(outs) =>
        if describe || p.limit == 0 then Turn(Typed(outs, []), calls, db)
        else if p.vectorField != "" then SearchTurn(p, fields, outs, calls, db, w)
        else QueryTurn(p, outs, s.limit.Some?, calls, db, w)
  }

  lemma {:induction false} SplitHasVector(e: Expr)
    requires Plans.ExtractVector(e).Ok?
    ensures Plans.ExtractVector(e).value.field != "" ==> Plans.ExtractVector(e).value.vector.Some?
  {
    hide EqualFold;
    match e
    case And(l, r) =>
      SplitHasVector(l);
      SplitHasVector(r);
    case Paren(x) => SplitHasVector(x);
    case _ =>
  }

  lemma VectorPresent(s: Select, printable: char -> bool)
    requires Plans.PlanSelect(s, printable).Ok?
    ensures var p := Plans.PlanSelect(s, printable).value;
            p.vectorField != "" ==> p.vectorExpr.Some?
  {
    hide Plans.ExtractVector, FilterText.ScalarFilter, Plans.FirstError, Plans.PlanLimit, Plans.WindowTooLarge;
    if s.where.Some? { SplitHasVector(s.where.value); }
  }

  // ------------------------------------------------------- INSERT and DELETE

  function FirstId(first: Option<Value>): nat {
    if first.Some? && first.value.VInt? && first.value.n >= 0 then first.value.n else 0
  }

  function InsertTurn(ins: Insert, db: string, w: World): Turn {
    if ins.qualified || ins.ignore || ins.onDuplicate || ins.partitions then
      Failed("unsupported INSERT clause", [], db)
    else
      var calls := [DescribeCollection(ins.table)];
      match w.schema(ins.table)
      case Err(m) => Failed(m, calls, db)
      case Ok(fields) =>
        match FillInsertColumns(fields, ins, w.data)
        case Err(m) => Failed(m, calls, db)
        case Ok(columns) =>
          var c := if ins.replace then UpsertRows(ins.table, columns) else InsertRows(ins.table, columns);
          match w.write(c)
          case Err(m) => Failed(m, calls + [c], db)
          case Ok(first) => Turn(Ok(QueryResult(None, |ins.rows.value|, FirstId(first))), calls + [c], db)
  }

  function DeleteTable(d: Delete): Result<string> {
    if d.targets || d.partitions || d.limit || d.orderBy || d.where.None? then
      Err("unsupported DELETE clause")
    else if |d.from| != 1 then Err("DELETE requires one collection")
    else
      var a := d.from[0];
      if !a.Aliased? || a.alias != "" || a.hints || !a.expr.TableName? || a.expr.qualifier != "" then
        Err("unsupported DELETE target")
      else Ok(a.expr.name)
  }

  function DeleteTurn(d: Delete, db: string, w: World): Turn {
    match DeleteTable(d)
    case Err(m) => Failed(m, [], db)
    case Ok(table) =>
      match FilterText.ScalarFilter(d.where.value, w.printable)
      case Err(m) => Failed(m, [], db)
      case Ok(filter) => Changed(DeleteRows(table, filter), db, w, DONE)
  }

  // ------------------------------------------------------- the other statements

  function TextRows(names: seq<string>): (rows: seq<seq<Value>>)
    ensures |rows| == |names|
  {
    seq(|names|, k requires 0 <= k < |names| => [VText(names[k])])
  }

  function ListTurn(title: string, c: Call, answer: Result<seq<string>>, describe: bool, db: string): Turn {
    if describe then Turn(Rows([title], []), [], db)
    else match answer
      case Err(m) => Failed(m, [c], db)
      case Ok(names) => Turn(Rows([title], TextRows(names)), [c], db)
  }

  function ShowTurn(kind: string, describe: bool, db: string, w: World): Turn {
    if ToUpper(kind) == "DATABASES" then ListTurn("DATABASES", ListDatabases, w.databases, describe, db)
    else if ToUpper(kind) == "TABLES" then ListTurn("TABLES", ListCollections, w.collections, describe, db)
    else Failed("show not supported", [], db)
  }

  function DatabaseTurn(action: DdlAction, name: string, db: string, w: World): Turn {
    match action
    case Create => Changed(CreateDatabase(name), db, w, QueryResult(None, 1, 0))
    case Drop => Changed(DropDatabase(name), db, w, DONE)
    case OtherAction => Failed("statement not supported", [], db)
  }

  function CreateTurn(t: Ddl.Table, db: string, w: World): Turn {
    match Ddl.SchemaOf(t)
    case Err(m) => Failed(m, [], db)
    case Ok(fields) => Changed(CreateCollection(t.name, fields), db, w, DONE)
  }

  function DropTurn(name: string, qualified: bool, ifExists: bool, db: string, w: World): Turn {
    if qualified || ifExists then Failed("unsupported DROP clause", [], db)
    else Changed(DropCollection(name), db, w, DONE)
  }

  function UseTurn(name: string, db: string, w: World): Turn {
    var t := Changed(UsingDatabase(name), db, w, DONE);
    if t.outcome.Ok? then t.(db := name) else t
  }

  /** The statements that reach the SQL parser. */
  function StmtTurn(s: Stmt, describe: bool, db: string, w: World): Turn {
    if describe && !s.SelectStmt? && !s.Show? then Turn(Ok(DONE), [], db)
    else match s
      case Show(kind) => ShowTurn(kind, describe, db, w)
      case DatabaseDdl(action, name) => DatabaseTurn(action, name, db, w)
      case CreateTable(t) => CreateTurn(t, db, w)
      case DropTable(name, qualified, ifExists) => DropTurn(name, qualified, ifExists, db, w)
      case OtherDdl => Failed("ddl not supported", [], db)
      case SelectStmt(select) => SelectTurn(select, describe, db, w)
      case InsertStmt(insert) => InsertTurn(insert, db, w)
      case DeleteStmt(delete) => DeleteTurn(delete, db, w)
      case Use(name) => UseTurn(name, db, w)
      case OtherStmt => Failed("statement is not supported", [], db)
  }

  const DESCRIBE_NAMES: seq<string> := ["Field", "Type", "PrimaryKey", "AutoID", "Parameters"]
  const INDEX_NAMES: seq<string> := ["Name", "Type", "Parameters"]

  function FieldRow(f: SchemaField, w: World): seq<Value> {
    [VText(f.name), VText(w.typeName(f.kind)), VBool(f.primaryKey), VBool(f.autoId), VText(w.json(f.params))]
  }

  function FieldRows(fields: seq<SchemaField>, w: World): (rows: seq<seq<Value>>)
    ensures |rows| == |fields|
  {
    seq(|fields|, k requires 0 <= k < |fields| => FieldRow(fields[k], w))
  }

  function IndexRows(indexes: seq<Index>, w: World): (rows: seq<seq<Value>>)
    ensures |rows| == |indexes|
  {
    seq(|indexes|, k requires 0 <= k < |indexes| =>
      [VText(indexes[k].name), VText(indexes[k].kind), VText(w.json(indexes[k].params))])
  }

  function DescribeHeader(): ResultSet {
    ResultSet(Untyped(DESCRIBE_NAMES)[2 := ResultColumn("PrimaryKey", Tiny)][3 := ResultColumn("AutoID", Tiny)], [])
  }

  function DescribeTurn(table: string, describe: bool, db: string, w: World): Turn {
    if describe then Turn(Ok(QueryResult(Some(DescribeHeader()), 0, 0)), [], db)
    else match w.schema(table)
      case Err(m) => Failed(m, [DescribeCollection(table)], db)
      case Ok(fields) => Turn(Rows(DESCRIBE_NAMES, FieldRows(fields, w)), [DescribeCollection(table)], db)
  }

  function IndexesTurn(table: string, describe: bool, db: string, w: World): Turn {
    if describe then Turn(Rows(INDEX_NAMES, []), [], db)
    else match w.indexes(table)
      case Err(m) => Failed(m, [ListIndexes(table)], db)
      case Ok(indexes) => Turn(Rows(INDEX_NAMES, IndexRows(indexes, w)), [ListIndexes(table)], db)
  }

  /** `handleQuery`. */
  function HandleQuery(c: Command, describe: bool, db: string, w: World): Turn {
    match c
    case EmptyText => Failed("empty SQL statement", [], db)
    case Invalid(reason) => Failed(reason, [], db)
    case Upsert(parsed) =>
      if describe then Turn(Ok(DONE), [], db)
      else if parsed.Err? then Failed(parsed.reason, [], db)
      else StmtTurn(InsertStmt(parsed.value), false, db, w)
    case Lifecycle(action, table) =>
      if describe then Turn(Ok(DONE), [], db) else Changed(ChangeLifecycle(action, table), db, w, DONE)
    case DescribeTable(table) => DescribeTurn(table, describe, db, w)
    case CreateIndex(index) =>
      if describe then Turn(Ok(DONE), [], db)
      else if index.Err? then Failed(index.reason, [], db)
      else Changed(BuildIndex(index.value), db, w, DONE)
    case DropIndex(name, table) =>
      if describe then Turn(Ok(DONE), [], db) else Changed(RemoveIndex(table, name), db, w, DONE)
    case ShowIndexes(table) => IndexesTurn(table, describe, db, w)
    case Partition(change, name, table) =>
      if describe then Turn(Ok(DONE), [], db) else Changed(ChangePartition(change, table, name), db, w, DONE)
    case ShowPartitions(table) => ListTurn("Partition", ListPartitions(table), w.partitions(table), describe, db)
    case Parsed(stmt) => StmtTurn(stmt, describe, db, w)
  }
}
