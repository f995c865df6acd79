/** The message loop of the PostgreSQL adapter as it is written: a connection
    object whose fields each message updates, and portal objects that are
    changed in place. Each method is proved against the state machine. */
module PgConnection {
  import opened Prelude
  import opened Literals
  import Lexer
  import opened Binder
  import opened Results
  import opened Wire
  import opened PgSession
  import ParameterOids

  // ------------------------------------------------------------- row encoding

  lemma EncodeUnfold(row: seq<Value>, columns: seq<ResultColumn>, formats: seq<int>, i: nat, lib: FloatLib)
    requires |row| == |columns| && i < |row|
    ensures var v := PgValue(row[i], PgOid(columns[i].kind), FormatAt(formats, i), lib);
            && (v.Err? ==> EncodeRow(row, columns, formats, i, lib) == Err(v.reason))
            && (v.Ok? ==> EncodeRow(row, columns, formats, i, lib)
                          == PrependCell(v.value, EncodeRow(row, columns, formats, i + 1, lib)))
  {
    hide PgValue;
  }

  function PrependCell(v: Option<string>, r: Result<seq<Option<string>>>): Result<seq<Option<string>>> {
    match r case Err(e) => Err(e) case Ok(vs) => Ok([v] + vs)
  }

  method EncodeRowLoop(row: seq<Value>, columns: seq<ResultColumn>, formats: seq<int>, lib: FloatLib)
    returns (r: Result<seq<Option<string>>>)
    requires |row| == |columns|
    ensures r == EncodeRow(row, columns, formats, 0, lib)
  {
    hide EncodeRow, PgValue;
    var values: seq<Option<string>> := [];
    ghost var whole := EncodeRow(row, columns, formats, 0, lib);
    assert whole.Ok? ==> [] + whole.value == whole.value;
    for i := 0 to |row|
      invariant var rest := EncodeRow(row, columns, formats, i, lib);
                (rest.Err? ==> whole == Err(rest.reason)) && (rest.Ok? ==> whole == Ok(values + rest.value))
    {
      EncodeUnfold(row, columns, formats, i, lib);
      var v := PgValue(row[i], PgOid(columns[i].kind), FormatAt(formats, i), lib);
      if v.Err? {
        return Err(v.reason);
      }
      ghost var rest := EncodeRow(row, columns, formats, i + 1, lib);
      if rest.Ok? { Assoc(values, [v.value], rest.value); }
      values := values + [v.value];
    }
    EncodeDone(row, columns, formats, lib);
    assert values + [] == values;
    return Ok(values);
  }

  lemma EncodeDone(row: seq<Value>, columns: seq<ResultColumn>, formats: seq<int>, lib: FloatLib)
    requires |row| == |columns|
    ensures EncodeRow(row, columns, formats, |row|, lib) == Ok([])
  {
  }

  function PrependEvents(head: seq<Event>, o: RowsOut): RowsOut {
    RowsOut(head + o.events, o.error)
  }

  lemma SendUnfold(r: ResultSet, start: nat, end: nat, formats: seq<int>, portal: nat, lib: FloatLib)
    requires Rectangular(r) && start < end <= |r.rows|
    ensures var row := EncodeRow(r.rows[start], r.columns, formats, 0, lib);
            var rest := SendRows(r, start + 1, end, formats, portal, lib);
            SendRows(r, start, end, formats, portal, lib)
            == if row.Ok? then PrependEvents([Sent(DataRow(row.value), portal)], rest)
               else RowsOut([], Some(row.reason))
  {
    hide EncodeRow;
  }

  /** `pgRows`. */
  method SendRowsLoop(r: ResultSet, start: nat, end: nat, formats: seq<int>, portal: nat, lib: FloatLib)
    returns (o: RowsOut)
    requires Rectangular(r) && start <= end <= |r.rows|
    ensures o == SendRows(r, start, end, formats, portal, lib)
  {
    hide SendRows, EncodeRow;
    var events: seq<Event> := [];
    ghost var whole := SendRows(r, start, end, formats, portal, lib);
    assert [] + whole.events == whole.events;
    for k := start to end
      invariant whole == PrependEvents(events, SendRows(r, k, end, formats, portal, lib))
    {
      SendUnfold(r, k, end, formats, portal, lib);
      var row := EncodeRowLoop(r.rows[k], r.columns, formats, lib);
      if row.Err? {
        assert events + [] == events;
        return RowsOut(events, Some(row.reason));
      }
      Assoc(events, [Sent(DataRow(row.value), portal)], SendRows(r, k + 1, end, formats, portal, lib).events);
      events := events + [Sent(DataRow(row.value), portal)];
    }
    SendDone(r, end, formats, portal, lib);
    assert events + [] == events;
    return RowsOut(events, None);
  }

  lemma SendDone(r: ResultSet, end: nat, formats: seq<int>, portal: nat, lib: FloatLib)
    requires Rectangular(r) && end <= |r.rows|
    ensures SendRows(r, end, end, formats, portal, lib) == RowsOut([], None)
  {
  }

  // ------------------------------------------------------------------- portals

  /** A bound portal. `id` is the model's number for it, so that what it sends
      can be told apart in the connection's record. */
  class PgPortal {
    const id: PortalId
    const query: string
    const formats: seq<int>
    var result: Option<Shaped>
    var pos: nat
    var completed: bool

    constructor (id: PortalId, query: string, formats: seq<int>)
      ensures Model() == Portal(id, query, formats, None, 0, false)
    {
      this.id := id;
      this.query := query;
      this.formats := formats;
      this.result := None;
      this.pos := 0;
      this.completed := false;
    }

    function Model(): Portal
      reads this
    {
      Portal(id, query, formats, result, pos, completed)
    }

    /** Execute: runs the query the first time, then moves the cursor. */
    method Run(maxRows: nat, up: Upstream, lib: FloatLib) returns (events: seq<Event>, error: Option<string>)
      requires ValidPortal(Model())
      modifies this
      ensures PortalOp(Model(), events, error) == ExecutePortal(old(Model()), maxRows, up, lib)
    {
      hide SendRows, PgTag;
      events, error := [], None;
      if result.None? {
        events := [Ran(query, false, id)];
        if up.run.Err? {
          return events, Some(up.run.reason);
        }
        result := Some(up.run.value);
      }
      ghost var started := Model();
      assert [] + NextPage(started, maxRows, lib).events == NextPage(started, maxRows, lib).events;
      var r := result.value;
      if r.resultset.Some? && !completed {
        var rs := r.resultset.value;
        var end := |rs.rows|;
        if maxRows > 0 && maxRows < end - pos {
          end := pos + maxRows;
        }
        var o := SendRowsLoop(rs, pos, end, formats, id, lib);
        pos := end;
        if o.error.Some? {
          return events + o.events, o.error;
        }
        if end < |rs.rows| {
          return events + (o.events + [Sent(PortalSuspended, id)]), None;
        }
        completed := true;
        return events + (o.events + [Sent(CommandComplete(PgTag(query, r)), id)]), None;
      }
      completed := true;
      return events + [Sent(CommandComplete(PgTag(query, r)), id)], None;
    }
  }

  // --------------------------------------------------------------- connection

  lemma ParamsUnfold(params: seq<Option<string>>, oids: seq<nat>, formats: seq<int>, i: nat, lib: FloatLib)
    requires |params| == |oids| && i < |params|
    ensures var a := PgParameter(params[i], oids[i], FormatAt(formats, i), lib);
            var rest := ReadParams(params, oids, formats, i + 1, lib);
            ReadParams(params, oids, formats, i, lib)
            == if a.Err? then Err(a.reason) else if rest.Err? then Err(rest.reason) else Ok([a.value] + rest.value)
  {
    hide PgParameter;
  }

  lemma ParamsDone(params: seq<Option<string>>, oids: seq<nat>, formats: seq<int>, lib: FloatLib)
    requires |params| == |oids|
    ensures ReadParams(params, oids, formats, |params|, lib) == Ok([])
  {
  }

  method ReadParamsLoop(params: seq<Option<string>>, oids: seq<nat>, formats: seq<int>, lib: FloatLib)
    returns (r: Result<seq<Arg>>)
    requires |params| == |oids|
    ensures r == ReadParams(params, oids, formats, 0, lib)
  {
    hide ReadParams, PgParameter;
    var args: seq<Arg> := [];
    ghost var whole := ReadParams(params, oids, formats, 0, lib);
    assert whole.Ok? ==> [] + whole.value == whole.value;
    for i := 0 to |params|
      invariant var rest := ReadParams(params, oids, formats, i, lib);
                (rest.Err? ==> whole == Err(rest.reason)) && (rest.Ok? ==> whole == Ok(args + rest.value))
    {
      ParamsUnfold(params, oids, formats, i, lib);
      var a := PgParameter(params[i], oids[i], FormatAt(formats, i), lib);
      if a.Err? {
        return Err(a.reason);
      }
      ghost var rest := ReadParams(params, oids, formats, i + 1, lib);
      if rest.Ok? { Assoc(args, [a.value], rest.value); }
      args := args + [a.value];
    }
    ParamsDone(params, oids, formats, lib);
    assert args + [] == args;
    return Ok(args);
  }

  /** `make([]uint32, n)` and `copy`. */
  method PadLoop(given: seq<nat>, n: nat) returns (oids: array<nat>)
    requires |given| <= n
    ensures fresh(oids) && oids[..] == PadOids(given, n)
  {
    oids := new nat[n](i => 0);
    for i := 0 to |given|
      invariant forall k :: 0 <= k < n ==> oids[k] == if k < i then given[k] else 0
    {
      oids[i] := given[i];
    }
  }

  /** The part of Bind that only computes: the text to run, or why there is none. */
  method ReadBind(st: Stored, m: Message, lib: FloatLib) returns (r: Result<string>)
    requires m.Bind?
    ensures r == BoundText(st, m, lib)
  {
    hide BindSql, ReadParams, ValidFormats;
    if |m.params| != |st.oids| {
      return Err("parameter count mismatch");
    }
    var valid := ValidFormatsLoop(m.formats, |m.params|);
    if !valid {
      return Err("invalid parameter formats");
    }
    var args := ReadParamsLoop(m.params, st.oids, m.formats, lib);
    if args.Err? {
      return Err(args.reason);
    }
    var bound := BindSql(st.query, Lexer.Postgres, args.value, false);
    if bound.Err? {
      return Err(bound.reason);
    }
    return Ok(bound.value.text);
  }

  class Connection {
    var statements: map<string, Stored>
    var portals: map<string, PgPortal>
    var failed: bool
    var closed: bool
    var nextId: PortalId
    /** Everything sent, run, described or read, in order. */
    var record: seq<Event>

    constructor ()
      ensures Valid() && Model() == INITIAL && record == []
    {
      statements, portals, failed, closed, nextId, record := map[], map[], false, false, 1, [];
    }

    /** Portals are separate objects. */
    ghost predicate Valid()
      reads this`portals, portals.Values
    {
      && (forall n, m :: n in portals && m in portals && n != m ==> portals[n] != portals[m])
      && (forall n :: n in portals ==> ValidPortal(portals[n].Model()))
    }

    ghost function Portals(): map<string, Portal>
      reads this`portals, portals.Values
    {
      map n | n in portals :: portals[n].Model()
    }

    ghost function Model(): State
      reads this, portals.Values
    {
      State(statements, Portals(), failed, closed, nextId)
    }

    /** A simple query: any error is reported at once, and the session goes on. */
    method HandleQuery(sql: string, up: Upstream, lib: FloatLib)
      modifies this`record
      ensures record == old(record) + Operate(INITIAL, Message.Query(sql), up, lib).events
    {
      hide SendRows, PgTag, BindSql, TrimSpace, PgDescription;
      ghost var q := QueryEvents(sql, up, lib);
      var events: seq<Event> := [];
      var error: Option<string> := None;
      if TrimSpace(sql) == "" {
        events := [Sent(EmptyQueryResponse, 0)];
      } else {
        var bound := BindSql(sql, Lexer.Postgres, [], false);
        if bound.Err? {
          error := Some(bound.reason);
        } else {
          events := [Ran(bound.value.text, false, 0)];
          if up.run.Err? {
            error := Some(up.run.reason);
          } else {
            var r := up.run.value;
            if r.resultset.Some? {
              var rs := r.resultset.value;
              events := events + [Sent(RowDescription(PgDescription(rs.columns, [])), 0)];
              var o := SendRowsLoop(rs, 0, |rs.rows|, [], 0, lib);
              events := events + o.events;
              error := o.error;
              if error.Some? { assert events + [] == events; }
            }
            if error.None? {
              events := events + [Sent(CommandComplete(PgTag(bound.value.text, r)), 0)];
            }
          }
        }
      }
      assert events == q.events && error == q.error;
      if error.Some? {
        events := events + [Sent(ErrorResponse(error.value), 0)];
      } else {
        assert events + [] == events;
      }
      record := record + (events + [Sent(ReadyForQuery, 0)]);
    }

    method HandleParse(name: string, query: string, given: seq<nat>, up: Upstream) returns (error: Option<string>)
      requires Valid()
      modifies this`statements, this`record
      ensures Valid()
      ensures var op := ParseOp(old(Model()), name, query, given, up);
              Model() == op.state && record == old(record) + op.events && error == op.error
    {
      hide BindSql, ParameterOids.Infer, Valid, Portals, PadOids;
      assert record + [] == record;
      if |statements| >= MAX_NAMED && name != "" {
        return Some("too many prepared statements");
      }
      var bound := BindSql(query, Lexer.Postgres, [], true);
      if bound.Err? {
        return Some(bound.reason);
      }
      var n := bound.value.count;
      if |given| > n {
        return Some("too many parameter types");
      }
      var oids := PadLoop(given, n);
      assert SchemaReads(query, oids[..], up.stmt) == SchemaReads(query, PadOids(given, n), up.stmt);
      ghost var read := SchemaReads(query, oids[..], up.stmt);
      Assoc(record, read, [Sent(ParseComplete, 0)]);
      var failure, asked := ParameterOids.ParameterOids(query, oids, up.stmt, up.schema);
      if asked {
        record := record + [ReadSchema(up.stmt.value.table, 0)];
      }
      if failure.Some? {
        return failure;
      }
      if name in statements && name != "" {
        return Some("prepared statement already exists");
      }
      statements := statements[name := Stored(query, oids[..])];
      record := record + [Sent(ParseComplete, 0)];
      return None;
    }

    method DescribeQuery(q: string, formats: seq<int>, up: Upstream) returns (error: Option<string>)
      modifies this`record
      ensures var d := DescribeEvents(q, formats, up); record == old(record) + d.events && error == d.error
    {
      hide PgDescription;
      record := record + [Ran(q, true, 0)];
      if up.run.Err? {
        return Some(up.run.reason);
      }
      if up.run.value.resultset.None? {
        record := record + [Sent(NoData, 0)];
      } else {
        record := record + [Sent(RowDescription(PgDescription(up.run.value.resultset.value.columns, formats)), 0)];
      }
      return None;
    }

    method HandleDescribe(target: char, name: string, up: Upstream) returns (error: Option<string>)
      requires Valid()
      modifies this`record
      ensures Valid()
      ensures var op := DescribeOp(old(Model()), target, name, up);
              Model() == op.state && record == old(record) + op.events && error == op.error
    {
      hide BindSql, DescribeEvents, ValidPortal;
      assert record + [] == record;
      if target == 'S' {
        if name !in statements {
          return Some("unknown prepared statement");
        }
        var st := statements[name];
        record := record + [Sent(ParameterDescription(st.oids), 0)];
        var bound := BindSql(st.query, Lexer.Postgres, [], true);
        if bound.Err? {
          return Some(bound.reason);
        }
        Assoc(old(record), [Sent(ParameterDescription(st.oids), 0)], DescribeEvents(bound.value.text, [], up).events);
        error := DescribeQuery(bound.value.text, [], up);
      } else if target == 'P' {
        if name !in portals {
          return Some("unknown portal");
        }
        error := DescribeQuery(portals[name].query, portals[name].formats, up);
      } else {
        return Some("invalid describe target");
      }
    }

    method HandleBind(m: Message, up: Upstream, lib: FloatLib) returns (error: Option<string>)
      requires Valid() && m.Bind?
      modifies this`portals, this`nextId, this`record
      ensures Valid()
      ensures forall p :: p in portals.Values ==> p in old(portals.Values) || fresh(p)
      ensures var op := BindOp(old(Model()), m, up, lib);
              Model() == op.state && record == old(record) + op.events && error == op.error
    {
      hide BoundText, ValidFormats, Valid, Portals;
      assert record + [] == record;
      PortalNames();
      if m.statement !in statements {
        return Some("unknown prepared statement");
      }
      var bound := ReadBind(statements[m.statement], m, lib);
      if bound.Err? {
        return Some(bound.reason);
      }
      var q := bound.value;
      Assoc(record, [Ran(q, true, 0)], [Sent(BindComplete, 0)]);
      record := record + [Ran(q, true, 0)];
      if up.run.Err? {
        return Some(up.run.reason);
      }
      var valid := ValidFormatsLoop(m.resultFormats, ColumnCount(up.run.value));
      if !valid {
        return Some("invalid result formats");
      }
      if |portals| >= MAX_NAMED && m.portal != "" {
        return Some("too many portals");
      }
      if m.portal in portals && m.portal != "" {
        return Some("portal already exists");
      }
      AddPortal(m.portal, q, m.resultFormats);
      record := record + [Sent(BindComplete, 0)];
      return None;
    }

    lemma PortalNames()
      ensures Portals().Keys == portals.Keys && |Portals()| == |portals|
    {
      SameSize(Portals(), portals);
    }

    method AddPortal(name: string, q: string, formats: seq<int>)
      requires Valid()
      modifies this`portals, this`nextId
      ensures Valid() && nextId == old(nextId) + 1
      ensures forall p :: p in portals.Values ==> p in old(portals.Values) || fresh(p)
      ensures Portals() == old(Portals())[name := Portal(old(nextId), q, formats, None, 0, false)]
    {
      hide ValidPortal;
      ghost var before := Portals();
      NewPortalValid(nextId, q, formats);
      var p := new PgPortal(nextId, q, formats);
      portals := portals[name := p];
      nextId := nextId + 1;
    }

    method HandleExecute(name: string, maxRows: nat, up: Upstream, lib: FloatLib) returns (error: Option<string>)
      requires Valid()
      modifies this`record, portals.Values
      ensures Valid() && portals == old(portals)
      ensures var op := ExecuteOp(old(Model()), name, maxRows, up, lib);
              Model() == op.state && record == old(record) + op.events && error == op.error
    {
      hide ExecutePortal, ValidPortal;
      assert record + [] == record;
      if name !in portals {
        return Some("unknown portal");
      }
      ghost var before := Model();
      ExecuteValid(portals[name].Model(), maxRows, up, lib);
      var events;
      events, error := portals[name].Run(maxRows, up, lib);
      record := record + events;
      assert Portals() == before.portals[name := portals[name].Model()];
    }

    method RemovePortal(name: string)
      requires Valid()
      modifies this`portals
      ensures Valid() && portals.Values <= old(portals.Values)
      ensures Portals() == old(Portals()) - {name}
    {
      hide ValidPortal;
      portals := portals - {name};
    }

    method HandleClose(target: char, name: string) returns (error: Option<string>)
      requires Valid()
      modifies this`statements, this`portals, this`record
      ensures Valid() && portals.Values <= old(portals.Values)
      ensures var op := CloseOp(old(Model()), target, name);
              Model() == op.state && record == old(record) + op.events && error == op.error
    {
      hide ValidPortal;
      assert record + [] == record;
      if target == 'S' {
        statements := statements - {name};
      } else if target == 'P' {
        RemovePortal(name);
      } else {
        return Some("invalid close target");
      }
      record := record + [Sent(CloseComplete, 0)];
      return None;
    }

    lemma ValidModel()
      requires Valid()
      ensures ValidPortals(Model())
    {
      hide ValidPortal;
    }

    method Dispatch(m: Message, up: Upstream, lib: FloatLib) returns (error: Option<string>)
      requires Valid() && !m.Terminate? && ValidPortals(Model())
      modifies this, portals.Values
      ensures Valid()
      ensures forall p :: p in portals.Values ==> p in old(portals.Values) || fresh(p)
      ensures var op := Operate(old(Model()), m, up, lib);
              Model() == op.state && record == old(record) + op.events && error == op.error
    {
      hide QueryEvents, ParseOp, DescribeOp, BindOp, ExecuteOp, CloseOp, ValidPortals, ValidPortal;
      assert record + [] == record;
      match m {
        case Query(sql) =>
          HandleQuery(sql, up, lib);
          error := None;
        case Parse(name, query, oids) => error := HandleParse(name, query, oids, up);
        case Describe(target, name) => error := HandleDescribe(target, name, up);
        case Bind(_, _, _, _, _) => error := HandleBind(m, up, lib);
        case Execute(name, maxRows) => error := HandleExecute(name, maxRows, up, lib);
        case Close(target, name) => error := HandleClose(target, name);
        case Sync =>
          failed := false;
          portals := map[];
          record := record + [Sent(ReadyForQuery, 0)];
          error := None;
        case Flush => error := None;
        case Unsupported => error := Some("unsupported PostgreSQL message");
      }
    }

    /** One turn of the message loop. */
    method Receive(m: Message, up: Upstream, lib: FloatLib)
      requires Valid()
      modifies this, portals.Values
      ensures Valid()
      ensures forall p :: p in portals.Values ==> p in old(portals.Values) || fresh(p)
      ensures ValidPortals(old(Model()))
      ensures var o := Step(old(Model()), m, up, lib);
              Model() == o.state && record == old(record) + o.events
    {
      hide QueryEvents, ParseOp, DescribeOp, BindOp, ExecuteOp, CloseOp, ValidPortals, Valid, Portals;
      ValidModel();
      ghost var s, before := Model(), record;
      assert before + [] == before;
      if closed {
        return;
      }
      if m.Terminate? {
        closed := true;
        return;
      }
      if failed && !m.Sync? {
        return;
      }
      ghost var op := Operate(s, m, up, lib);
      var error := Dispatch(m, up, lib);
      if error.Some? {
        Assoc(before, op.events, [Sent(ErrorResponse(error.value), 0)]);
        record := record + [Sent(ErrorResponse(error.value), 0)];
        failed := true;
      }
    }
  }

  lemma NewPortalValid(id: PortalId, q: string, formats: seq<int>)
    ensures ValidPortal(Portal(id, q, formats, None, 0, false))
  {
  }

  lemma SameSize<S, T>(a: map<string, S>, b: map<string, T>)
    requires a.Keys == b.Keys
    ensures |a| == |b|
  {
    assert |a| == |a.Keys| && |b| == |b.Keys|;
  }
}
