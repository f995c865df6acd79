/** The PostgreSQL session after authentication, as a state machine: what one
    client message does to statements and portals, what is sent back, and which
    upstream calls it causes. Upstream outcomes are inputs of each step. */
module PgSession {
  import opened Prelude
  import opened Literals
  import opened Lexer
  import opened Binder
  import opened Results
  import opened Wire
  import ParameterOids

  datatype Message =
    | Query(sql: string)
    | Parse(name: string, query: string, oids: seq<nat>)
    | Describe(target: char, name: string)
    | Bind(portal: string, statement: string, formats: seq<int>, params: seq<Option<string>>, resultFormats: seq<int>)
    | Execute(portal: string, maxRows: nat)
    | Close(target: char, name: string)
    | Sync
    | Flush
    | Terminate
    | Unsupported

  datatype Reply =
    | ErrorResponse(message: string)
    | ReadyForQuery
    | EmptyQueryResponse
    | RowDescription(columns: seq<ColumnDescription>)
    | DataRow(values: seq<Option<string>>)
    | CommandComplete(tag: string)
    | ParseComplete
    | ParameterDescription(oids: seq<nat>)
    | NoData
    | BindComplete
    | PortalSuspended
    | CloseComplete

  /** Results reaching the adapter are rectangular; the session builds no other. */
  type Shaped = r: QueryResult | WellShaped(r) witness DONE

  type PortalId = n: nat | n >= 1 witness 1

  /** `formats` is what was bound; `id` numbers the session's portals from 1 in
      the order they were bound, so that the log can tell them apart. */
  datatype Portal = Portal(
    id: PortalId, query: string, formats: seq<int>, result: Option<Shaped>, pos: nat, completed: bool)

  datatype Stored = Stored(query: string, oids: seq<nat>)

  datatype State = State(
    statements: map<string, Stored>, portals: map<string, Portal>, failed: bool, closed: bool, nextId: PortalId)

  const INITIAL: State := State(map[], map[], false, false, 1)

  /** What happens, in order: messages sent, statements run or described, and
      schemas read to infer parameter types. `portal` is the portal an event
      belongs to, 0 for none. */
  datatype Event =
    | Sent(reply: Reply, portal: nat)
    | ReadSchema(table: string, portal: nat)
    | Ran(query: string, describe: bool, portal: nat)

  /** The answers of the upstream during one message: the outcome of the one query
      it may execute or describe, and what parameter inference finds. */
  datatype Upstream = Upstream(
    run: Result<Shaped>, stmt: Option<ParameterOids.Statement>, schema: Result<seq<SchemaField>>)

  /** An operation's new state, its events, and its error. */
  datatype Op = Op(state: State, events: seq<Event>, error: Option<string>)

  function Fail(s: State, e: string): Op {
    Op(s, [], Some(e))
  }

  // --------------------------------------------------------------------- rows

  function EncodeRow(row: seq<Value>, columns: seq<ResultColumn>, formats: seq<int>, i: nat, lib: FloatLib)
    : (r: Result<seq<Option<string>>>)
    requires |row| == |columns| && i <= |row|
    ensures r.Ok? ==> |r.value| == |row| - i
    decreases |row| - i
  {
    if i == |row| then Ok([])
    else match PgValue(row[i], PgOid(columns[i].kind), FormatAt(formats, i), lib)
      case Err(e) => Err(e)
      case Ok(v) =>
        match EncodeRow(row, columns, formats, i + 1, lib)
        case Err(e) => Err(e)
        case Ok(vs) => Ok([v] + vs)
  }

  datatype RowsOut = RowsOut(events: seq<Event>, error: Option<string>)

  /** `pgRows`: the rows from `start` to `end`, stopping at one that has no
      encoding. */
  function SendRows(r: ResultSet, start: nat, end: nat, formats: seq<int>, portal: nat, lib: FloatLib): RowsOut
    requires Rectangular(r) && start <= end <= |r.rows|
    decreases end - start
  {
    if start == end then RowsOut([], None)
    else match EncodeRow(r.rows[start], r.columns, formats, 0, lib)
      case Err(e) => RowsOut([], Some(e))
      case Ok(vs) =>
        var rest := SendRows(r, start + 1, end, formats, portal, lib);
        RowsOut([Sent(DataRow(vs), portal)] + rest.events, rest.error)
  }

  // --------------------------------------------------------------- operations

  function QueryEvents(sql: string, up: Upstream, lib: FloatLib): RowsOut {
    if TrimSpace(sql) == "" then RowsOut([Sent(EmptyQueryResponse, 0)], None)
    else match BindSql(sql, Postgres, [], false)
      case Err(e) => RowsOut([], Some(e))
      case Ok(q) =>
        var ran := [Ran(q.text, false, 0)];
        match up.run
        case Err(e) => RowsOut(ran, Some(e))
        case Ok(r) =>
          var done := [Sent(CommandComplete(PgTag(q.text, r)), 0)];
          match r.resultset
          case None => RowsOut(ran + done, None)
          case Some(rs) =>
            var rows := SendRows(rs, 0, |rs.rows|, [], 0, lib);
            var head := ran + [Sent(RowDescription(PgDescription(rs.columns, [])), 0)];
            RowsOut(head + rows.events + (if rows.error.None? then done else []), rows.error)
  }

  const MAX_NAMED: nat := 1024

  function ParseOp(s: State, name: string, query: string, given: seq<nat>, up: Upstream): Op {
    if |s.statements| >= MAX_NAMED && name != "" then Fail(s, "too many prepared statements")
    else match BindSql(query, Postgres, [], true)
      case Err(e) => Fail(s, e)
      case Ok(b) =>
        if |given| > b.count then Fail(s, "too many parameter types")
        else
          var read := SchemaReads(query, PadOids(given, b.count), up.stmt);
          match ParameterOids.Infer(query, PadOids(given, b.count), up.stmt, up.schema)
          case Err(e) => Op(s, read, Some(e))
          case Ok(oids) =>
            if name in s.statements && name != "" then Op(s, read, Some("prepared statement already exists"))
            else Op(s.(statements := s.statements[name := Stored(query, oids)]), read + [Sent(ParseComplete, 0)], None)
  }

  function SchemaReads(query: string, oids: seq<nat>, stmt: Option<ParameterOids.Statement>): (es: seq<Event>)
    ensures |es| <= 1 && forall k :: 0 <= k < |es| ==> es[k].ReadSchema? && es[k].portal == 0
  {
    if ParameterOids.AsksSchema(query, oids, stmt) then [ReadSchema(stmt.value.table, 0)] else []
  }

  /** `make([]uint32, n)` followed by `copy`. */
  function PadOids(given: seq<nat>, n: nat): (r: seq<nat>)
    requires |given| <= n
    ensures |r| == n
  {
    given + seq(n - |given|, _ => 0)
  }

  function DescribeEvents(q: string, formats: seq<int>, up: Upstream): RowsOut {
    var ran := [Ran(q, true, 0)];
    match up.run
    case Err(e) => RowsOut(ran, Some(e))
    case Ok(r) =>
      var reply := match r.resultset
                   case None => NoData
                   case Some(rs) => RowDescription(PgDescription(rs.columns, formats));
      RowsOut(ran + [Sent(reply, 0)], None)
  }

  function DescribeOp(s: State, target: char, name: string, up: Upstream): Op {
    if target == 'S' then
      if name !in s.statements then Fail(s, "unknown prepared statement")
      else
        var st := s.statements[name];
        var head := [Sent(ParameterDescription(st.oids), 0)];
        match BindSql(st.query, Postgres, [], true)
        case Err(e) => Op(s, head, Some(e))
        case Ok(b) =>
          var d := DescribeEvents(b.text, [], up);
          Op(s, head + d.events, d.error)
    else if target == 'P' then
      if name !in s.portals then Fail(s, "unknown portal")
      else
        var p := s.portals[name];
        var d := DescribeEvents(p.query, p.formats, up);
        Op(s, d.events, d.error)
    else Fail(s, "invalid describe target")
  }

  function ReadParams(params: seq<Option<string>>, oids: seq<nat>, formats: seq<int>, i: nat, lib: FloatLib)
    : (r: Result<seq<Arg>>)
    requires |params| == |oids| && i <= |params|
    ensures r.Ok? ==> |r.value| == |params| - i && forall a :: a in r.value ==> Supported(a)
    decreases |params| - i
  {
    if i == |params| then Ok([])
    else match PgParameter(params[i], oids[i], FormatAt(formats, i), lib)
      case Err(e) => Err(e)
      case Ok(a) =>
        match ReadParams(params, oids, formats, i + 1, lib)
        case Err(e) => Err(e)
        case Ok(rest) => Ok([a] + rest)
  }

  function ColumnCount(r: QueryResult): nat {
    match r.resultset case None => 0 case Some(rs) => |rs.columns|
  }

  /** Everything Bind checks before it touches the portals: the bound text. */
  function BoundText(st: Stored, m: Message, lib: FloatLib): Result<string>
    requires m.Bind?
  {
    if |m.params| != |st.oids| then Err("parameter count mismatch")
    else if !ValidFormats(m.formats, |m.params|) then Err("invalid parameter formats")
    else match ReadParams(m.params, st.oids, m.formats, 0, lib)
      case Err(e) => Err(e)
      case Ok(args) => match BindSql(st.query, Postgres, args, false) case Err(e) => Err(e) case Ok(b) => Ok(b.text)
  }

  function BindOp(s: State, m: Message, up: Upstream, lib: FloatLib): Op
    requires m.Bind?
  {
    if m.statement !in s.statements then Fail(s, "unknown prepared statement")
    else match BoundText(s.statements[m.statement], m, lib)
      case Err(e) => Fail(s, e)
      case Ok(q) =>
        var ran := [Ran(q, true, 0)];
        match up.run
        case Err(e) => Op(s, ran, Some(e))
        case Ok(r) =>
          if !ValidFormats(m.resultFormats, ColumnCount(r)) then Op(s, ran, Some("invalid result formats"))
          else if |s.portals| >= MAX_NAMED && m.portal != "" then Op(s, ran, Some("too many portals"))
          else if m.portal in s.portals && m.portal != "" then Op(s, ran, Some("portal already exists"))
          else
            var p := Portal(s.nextId, q, m.resultFormats, None, 0, false);
            Op(s.(portals := s.portals[m.portal := p], nextId := s.nextId + 1), ran + [Sent(BindComplete, 0)], None)
  }

  /** A cursor never runs past its rows, and only a portal that has run moves. */
  predicate ValidPortal(p: Portal) {
    && (p.result.None? ==> p.pos == 0 && !p.completed)
    && (p.result.Some? && p.result.value.resultset.Some? ==>
          p.pos <= |p.result.value.resultset.value.rows| &&
          (p.completed ==> p.pos == |p.result.value.resultset.value.rows|))
    && (p.result.Some? && p.result.value.resultset.None? ==> p.pos == 0)
  }

  datatype PortalOp = PortalOp(portal: Portal, events: seq<Event>, error: Option<string>)

  function PageEnd(n: nat, pos: nat, maxRows: nat): (end: nat)
    requires pos <= n
    ensures pos <= end <= n
  {
    if maxRows > 0 && maxRows < n - pos then pos + maxRows else n
  }

  /** Execute on a portal whose query has run. */
  function NextPage(p: Portal, maxRows: nat, lib: FloatLib): PortalOp
    requires ValidPortal(p) && p.result.Some?
  {
    var r := p.result.value;
    var done := PortalOp(p.(completed := true), [Sent(CommandComplete(PgTag(p.query, r)), p.id)], None);
    if r.resultset.None? || p.completed then done
    else
      var rs := r.resultset.value;
      var end := PageEnd(|rs.rows|, p.pos, maxRows);
      var rows := SendRows(rs, p.pos, end, p.formats, p.id, lib);
      var moved := p.(pos := end);
      if rows.error.Some? then PortalOp(moved, rows.events, rows.error)
      else if end < |rs.rows| then PortalOp(moved, rows.events + [Sent(PortalSuspended, p.id)], None)
      else PortalOp(moved.(completed := true), rows.events + done.events, None)
  }

  function ExecutePortal(p: Portal, maxRows: nat, up: Upstream, lib: FloatLib): PortalOp
    requires ValidPortal(p)
  {
    if p.result.Some? then NextPage(p, maxRows, lib)
    else
      var ran := [Ran(p.query, false, p.id)];
      match up.run
      case Err(e) => PortalOp(p, ran, Some(e))
      case Ok(r) =>
        var op := NextPage(p.(result := Some(r)), maxRows, lib);
        op.(events := ran + op.events)
  }

  predicate ValidPortals(s: State) {
    forall n :: n in s.portals ==> ValidPortal(s.portals[n])
  }

  function ExecuteOp(s: State, name: string, maxRows: nat, up: Upstream, lib: FloatLib): Op
    requires ValidPortals(s)
  {
    if name !in s.portals then Fail(s, "unknown portal")
    else
      var op := ExecutePortal(s.portals[name], maxRows, up, lib);
      Op(s.(portals := s.portals[name := op.portal]), op.events, op.error)
  }

  function CloseOp(s: State, target: char, name: string): Op {
    var reply := [Sent(CloseComplete, 0)];
    if target == 'S' then Op(s.(statements := s.statements - {name}), reply, None)
    else if target == 'P' then Op(s.(portals := s.portals - {name}), reply, None)
    else Fail(s, "invalid close target")
  }

  function Operate(s: State, m: Message, up: Upstream, lib: FloatLib): Op
    requires ValidPortals(s)
  {
    match m
    case Query(sql) =>
      var q := QueryEvents(sql, up, lib);
      var failure := if q.error.Some? then [Sent(ErrorResponse(q.error.value), 0)] else [];
      Op(s, q.events + failure + [Sent(ReadyForQuery, 0)], None)
    case Parse(name, query, oids) => ParseOp(s, name, query, oids, up)
    case Describe(target, name) => DescribeOp(s, target, name, up)
    case Bind(_, _, _, _, _) => BindOp(s, m, up, lib)
    case Execute(name, maxRows) => ExecuteOp(s, name, maxRows, up, lib)
    case Close(target, name) => CloseOp(s, target, name)
    case Sync => Op(s.(failed := false, portals := map[]), [Sent(ReadyForQuery, 0)], None)
    case Flush => Op(s, [], None)
    case Terminate => Op(s.(closed := true), [], None)
    case Unsupported => Fail(s, "unsupported PostgreSQL message")
  }

  /** A message is skipped once the session has ended, and between an error and
      the next Sync. */
  predicate Skipped(s: State, m: Message) {
    s.closed || (s.failed && m != Sync && m != Terminate)
  }

  datatype Outcome = Outcome(state: State, events: seq<Event>)

  function Step(s: State, m: Message, up: Upstream, lib: FloatLib): Outcome
    requires ValidPortals(s)
  {
    if Skipped(s, m) then Outcome(s, [])
    else
      var op := Operate(s, m, up, lib);
      match op.error
      case None => Outcome(op.state, op.events)
      case Some(e) => Outcome(op.state.(failed := true), op.events + [Sent(ErrorResponse(e), 0)])
  }

  // ------------------------------------------------------------ whole sessions

  lemma NextPageValid(p: Portal, maxRows: nat, lib: FloatLib)
    requires ValidPortal(p) && p.result.Some?
    ensures ValidPortal(NextPage(p, maxRows, lib).portal)
  {
    hide SendRows, PgTag;
  }

  lemma ExecuteValid(p: Portal, maxRows: nat, up: Upstream, lib: FloatLib)
    requires ValidPortal(p)
    ensures ValidPortal(ExecutePortal(p, maxRows, up, lib).portal)
  {
    hide NextPage;
    if p.result.Some? {
      NextPageValid(p, maxRows, lib);
    } else if up.run.Ok? {
      NextPageValid(p.(result := Some(up.run.value)), maxRows, lib);
    }
  }

  lemma StepValid(s: State, m: Message, up: Upstream, lib: FloatLib)
    requires ValidPortals(s)
    ensures ValidPortals(Step(s, m, up, lib).state)
  {
    hide QueryEvents, ParameterOids.Infer, BindSql, DescribeEvents, ExecutePortal, BoundText;
    if m.Execute? && m.portal in s.portals { ExecuteValid(s.portals[m.portal], m.maxRows, up, lib); }
  }

  datatype Input = Input(message: Message, upstream: Upstream)

  /** A session fed any messages, each with any behaviour of the upstream. */
  function Run(s: State, inputs: seq<Input>, lib: FloatLib): (o: Outcome)
    requires ValidPortals(s)
    ensures ValidPortals(o.state)
    decreases |inputs|
  {
    if inputs == [] then Outcome(s, [])
    else
      StepValid(s, inputs[0].message, inputs[0].upstream, lib);
      var first := Step(s, inputs[0].message, inputs[0].upstream, lib);
      var rest := Run(first.state, inputs[1..], lib);
      Outcome(rest.state, first.events + rest.events)
  }
}
