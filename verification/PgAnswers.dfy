/** What one message of a PostgreSQL session is answered with, and what it leaves. */
module PgAnswers {
  import opened Prelude
  import opened Literals
  import opened Lexer
  import opened Binder
  import opened Results
  import opened Wire
  import opened PgSession
  import opened PgRuns
  import opened DescribeZeros
  import ParameterOids

  // ------------------------------------------------------------- format codes

  /** The code of the i-th of `n` values: its own, the one for all, or text. */
  function CodeOf(codes: seq<int>, n: nat, i: nat): int {
    if |codes| == n && i < n then codes[i] else if |codes| == 1 then codes[0] else 0
  }

  /** No codes, one for all or one for each, of text or binary. */
  predicate GoodCodes(codes: seq<int>, n: nat) {
    && (codes == [] || |codes| == 1 || |codes| == n)
    && forall c :: c in codes ==> c in {0, 1}
  }

  lemma CodesExact(codes: seq<int>, n: nat)
    ensures ValidFormats(codes, n) <==> GoodCodes(codes, n)
    ensures GoodCodes(codes, n) ==> forall i: nat :: i < n ==> FormatAt(codes, i) == CodeOf(codes, n, i)
  {
    if ValidFormats(codes, n) {
      forall c | c in codes ensures c in {0, 1} {
        var k :| 0 <= k < |codes| && codes[k] == c;
      }
    }
    if GoodCodes(codes, n) {
      forall k | 0 <= k < |codes| ensures codes[k] == 0 || codes[k] == 1 {
        assert codes[k] in codes;
      }
    }
  }

  // --------------------------------------------------------------------- rows

  /** `values` are the cells of a row, each under its column's type and code. */
  predicate RowSent(values: seq<Option<string>>, row: seq<Value>, columns: seq<ResultColumn>, codes: seq<int>, lib: FloatLib)
    requires |row| == |columns|
  {
    |values| == |row| &&
    forall i :: 0 <= i < |row| ==> PgValue(row[i], PgOid(columns[i].kind), CodeOf(codes, |row|, i), lib) == Ok(values[i])
  }

  lemma {:induction false} CellsEncoded(row: seq<Value>, columns: seq<ResultColumn>, codes: seq<int>, i: nat, lib: FloatLib)
    requires |row| == |columns| && i <= |row|
    ensures (EncodeRow(row, columns, codes, i, lib).Ok?
             <==> forall k :: i <= k < |row| ==> PgValue(row[k], PgOid(columns[k].kind), FormatAt(codes, k), lib).Ok?)
    ensures EncodeRow(row, columns, codes, i, lib).Ok? ==>
              forall k :: i <= k < |row| ==>
                PgValue(row[k], PgOid(columns[k].kind), FormatAt(codes, k), lib)
                == Ok(EncodeRow(row, columns, codes, i, lib).value[k - i])
    decreases |row| - i
  {
    hide PgValue, PgOid, FormatAt;
    if i < |row| { CellsEncoded(row, columns, codes, i + 1, lib); }
  }

  /** A row is encoded cell by cell, or fails if a cell has no encoding. */
  lemma RowsEncoded(row: seq<Value>, columns: seq<ResultColumn>, codes: seq<int>, lib: FloatLib)
    requires |row| == |columns| && GoodCodes(codes, |row|)
    ensures (EncodeRow(row, columns, codes, 0, lib).Ok?
             <==> forall i :: 0 <= i < |row| ==> PgValue(row[i], PgOid(columns[i].kind), CodeOf(codes, |row|, i), lib).Ok?)
    ensures EncodeRow(row, columns, codes, 0, lib).Ok? ==>
              RowSent(EncodeRow(row, columns, codes, 0, lib).value, row, columns, codes, lib)
  {
    hide PgValue, PgOid, EncodeRow, GoodCodes, CodeOf, FormatAt;
    CodesExact(codes, |row|);
    CellsEncoded(row, columns, codes, 0, lib);
    forall i: nat | i < |row|
      ensures PgValue(row[i], PgOid(columns[i].kind), FormatAt(codes, i), lib)
           == PgValue(row[i], PgOid(columns[i].kind), CodeOf(codes, |row|, i), lib)
    {
    }
  }

  /** A description names every column, with its type, size and code. */
  predicate Announces(d: seq<ColumnDescription>, columns: seq<ResultColumn>, codes: seq<int>) {
    |d| == |columns| && forall i :: 0 <= i < |columns| ==> d[i] == Wire.Describe(columns[i], CodeOf(codes, |columns|, i))
  }

  lemma AnnouncesExactly(columns: seq<ResultColumn>, codes: seq<int>)
    requires GoodCodes(codes, |columns|)
    ensures Announces(PgDescription(columns, codes), columns, codes)
  {
    hide GoodCodes, CodeOf, FormatAt;
    CodesExact(codes, |columns|);
  }

  // --------------------------------------------------------------------- Bind

  /** Argument i is the value of parameter i, read under type i and code i. */
  predicate AreArguments(args: seq<Arg>, params: seq<Option<string>>, oids: seq<nat>, codes: seq<int>, lib: FloatLib)
    requires |params| == |oids|
  {
    |args| == |params| &&
    forall i :: 0 <= i < |params| ==> PgParameter(params[i], oids[i], CodeOf(codes, |params|, i), lib) == Ok(args[i])
  }

  lemma {:induction false} ParamsRead(params: seq<Option<string>>, oids: seq<nat>, codes: seq<int>, i: nat, lib: FloatLib)
    requires |params| == |oids| && i <= |params|
    ensures (ReadParams(params, oids, codes, i, lib).Ok?
             <==> forall k :: i <= k < |params| ==> PgParameter(params[k], oids[k], FormatAt(codes, k), lib).Ok?)
    ensures ReadParams(params, oids, codes, i, lib).Ok? ==>
              forall k :: i <= k < |params| ==>
                PgParameter(params[k], oids[k], FormatAt(codes, k), lib) == Ok(ReadParams(params, oids, codes, i, lib).value[k - i])
    decreases |params| - i
  {
    hide PgParameter, FormatAt;
    if i < |params| { ParamsRead(params, oids, codes, i + 1, lib); }
  }

  /** The parameters of a Bind can be read: one for each type, with good codes, and
      each a value of its type. */
  predicate Readable(m: Message, oids: seq<nat>, lib: FloatLib)
    requires m.Bind?
  {
    && |m.params| == |oids| && GoodCodes(m.formats, |m.params|)
    && forall i :: 0 <= i < |oids| ==> PgParameter(m.params[i], oids[i], CodeOf(m.formats, |m.params|, i), lib).Ok?
  }

  lemma ReadsArguments(m: Message, oids: seq<nat>, lib: FloatLib)
    requires m.Bind? && |m.params| == |oids| && GoodCodes(m.formats, |m.params|)
    ensures ReadParams(m.params, oids, m.formats, 0, lib).Ok? <==> Readable(m, oids, lib)
    ensures ReadParams(m.params, oids, m.formats, 0, lib).Ok? ==>
              AreArguments(ReadParams(m.params, oids, m.formats, 0, lib).value, m.params, oids, m.formats, lib)
  {
    hide PgParameter, FormatAt, GoodCodes, CodeOf, ReadParams;
    CodesExact(m.formats, |m.params|);
    ParamsRead(m.params, oids, m.formats, 0, lib);
    forall i: nat | i < |oids|
      ensures PgParameter(m.params[i], oids[i], FormatAt(m.formats, i), lib)
           == PgParameter(m.params[i], oids[i], CodeOf(m.formats, |m.params|, i), lib)
    {
    }
  }

  lemma OneReading(a: seq<Arg>, b: seq<Arg>, params: seq<Option<string>>, oids: seq<nat>, codes: seq<int>, lib: FloatLib)
    requires |params| == |oids|
    requires AreArguments(a, params, oids, codes, lib) && AreArguments(b, params, oids, codes, lib)
    ensures a == b
  {
    hide PgParameter, CodeOf;
    assert forall i :: 0 <= i < |params| ==> Ok(a[i]) == Ok(b[i]);
  }

  /** A prepared statement is bound exactly if the parameters can be read, to its
      query with the arguments they are. */
  lemma BindsArguments(st: Stored, m: Message, args: seq<Arg>, lib: FloatLib)
    requires Prepared(st) && m.Bind?
    ensures BoundText(st, m, lib).Ok? <==> Readable(m, st.oids, lib)
    ensures |m.params| == |st.oids| && Readable(m, st.oids, lib) && AreArguments(args, m.params, st.oids, m.formats, lib) ==>
              && BindSql(st.query, Postgres, args, false).Ok?
              && BoundText(st, m, lib) == Ok(BindSql(st.query, Postgres, args, false).value.text)
  {
    hide BindSql, ReadParams, ValidFormats, PgParameter, CodeOf, GoodCodes, Prepared, AreArguments;
    CodesExact(m.formats, |m.params|);
    PreparedNeverFailsToBind(st, m, lib);
    if |m.params| == |st.oids| && GoodCodes(m.formats, |m.params|) {
      ReadsArguments(m, st.oids, lib);
      if Readable(m, st.oids, lib) && AreArguments(args, m.params, st.oids, m.formats, lib) {
        OneReading(args, ReadParams(m.params, st.oids, m.formats, 0, lib).value, m.params, st.oids, m.formats, lib);
      }
    }
  }

  /** When a Bind whose text exists creates its portal: described without error, with
      good result codes, under a free or the unnamed name, of 1024 at most. */
  predicate Bindable(s: State, m: Message, up: Upstream)
    requires m.Bind?
  {
    && up.run.Ok?
    && GoodCodes(m.resultFormats, if up.run.value.resultset.None? then 0 else |up.run.value.resultset.value.columns|)
    && (m.portal == "" || (|s.portals| < 1024 && m.portal !in s.portals))
  }

  /** Bind in full: the text described, the portal created, and nothing else
      changed; or an error and nothing changed at all. */
  lemma BindsExactly(s: State, m: Message, args: seq<Arg>, up: Upstream, lib: FloatLib)
    requires ValidPortals(s) && AllPrepared(s) && m.Bind?
    ensures var op := Operate(s, m, up, lib);
            && (m.statement !in s.statements || !Readable(m, s.statements[m.statement].oids, lib) ==>
                  op.state == s && op.events == [] && op.error.Some?)
            && (m.statement in s.statements && Readable(m, s.statements[m.statement].oids, lib)
                && AreArguments(args, m.params, s.statements[m.statement].oids, m.formats, lib) ==>
                  && BindSql(s.statements[m.statement].query, Postgres, args, false).Ok?
                  && var text := BindSql(s.statements[m.statement].query, Postgres, args, false).value.text;
                     if Bindable(s, m, up) then
                       && op.error == None && op.events == [Ran(text, true, 0), Sent(BindComplete, 0)]
                       && op.state == s.(portals := s.portals[m.portal := Portal(s.nextId, text, m.resultFormats, None, 0, false)],
                                         nextId := s.nextId + 1)
                     else op.state == s && op.events == [Ran(text, true, 0)] && op.error.Some?)
  {
    hide BindSql, BoundText, Readable, AreArguments, GoodCodes, ValidFormats, Prepared;
    if m.statement in s.statements {
      BindsArguments(s.statements[m.statement], m, args, lib);
      if up.run.Ok? { CodesExact(m.resultFormats, ColumnCount(up.run.value)); }
      ReadableCount(m, s.statements[m.statement].oids, lib);
    }
  }

  lemma ReadableCount(m: Message, oids: seq<nat>, lib: FloatLib)
    requires m.Bind?
    ensures Readable(m, oids, lib) ==> |m.params| == |oids|
  {
  }

  // ----------------------------------------------------------------- Describe

  /** What a description is answered with: no data, or the columns of the result. */
  predicate Answered(e: Event, r: QueryResult, codes: seq<int>) {
    e.Sent? && e.portal == 0 &&
    if r.resultset.None? then e.reply == NoData
    else e.reply.RowDescription? && Announces(e.reply.columns, r.resultset.value.columns, codes)
  }

  lemma DescribesText(q: string, codes: seq<int>, up: Upstream)
    requires up.run.Ok? && up.run.value.resultset.Some? ==> GoodCodes(codes, |up.run.value.resultset.value.columns|)
    ensures var d := DescribeEvents(q, codes, up);
            match up.run
            case Err(e) => d == RowsOut([Ran(q, true, 0)], Some(e))
            case Ok(r) => |d.events| == 2 && d.events[0] == Ran(q, true, 0) && Answered(d.events[1], r, codes) && d.error == None
  {
    hide PgDescription, Announces, GoodCodes;
    if up.run.Ok? && up.run.value.resultset.Some? { AnnouncesExactly(up.run.value.resultset.value.columns, codes); }
  }

  /** Describing a prepared statement announces its parameter types and then the
      columns of its query with 0 for every parameter, all in text. */
  lemma DescribesStatement(s: State, name: string, up: Upstream, lib: FloatLib)
    requires ValidPortals(s) && AllPrepared(s)
    ensures var op := Operate(s, PgSession.Describe('S', name), up, lib);
            && op.state == s
            && (name !in s.statements ==> op.events == [] && op.error.Some?)
            && (name in s.statements ==>
                  var st := s.statements[name];
                  var zeros := BindSql(st.query, Postgres, Zeros(|st.oids|), false);
                  && zeros.Ok? && |op.events| >= 2
                  && op.events[0] == Sent(ParameterDescription(st.oids), 0) && op.events[1] == Ran(zeros.value.text, true, 0)
                  && match up.run
                     case Err(e) => |op.events| == 2 && op.error == Some(e)
                     case Ok(r) => |op.events| == 3 && Answered(op.events[2], r, []) && op.error == None)
  {
    hide BindSql, DescribeEvents, Answered;
    if name in s.statements {
      var st := s.statements[name];
      assert Prepared(st);
      DescribesAsZeros(st.query, Postgres, [], |st.oids|);
      DescribesText(BindSql(st.query, Postgres, [], true).value.text, [], up);
    }
  }

  /** Describing a portal announces the columns of its bound query, in the formats it
      was bound with. */
  lemma DescribesPortal(s: State, name: string, up: Upstream, lib: FloatLib)
    requires ValidPortals(s)
    requires name in s.portals && up.run.Ok? && up.run.value.resultset.Some? ==>
               GoodCodes(s.portals[name].formats, |up.run.value.resultset.value.columns|)
    ensures var op := Operate(s, PgSession.Describe('P', name), up, lib);
            && op.state == s
            && (name !in s.portals ==> op.events == [] && op.error.Some?)
            && (name in s.portals ==>
                  && |op.events| >= 1 && op.events[0] == Ran(s.portals[name].query, true, 0)
                  && match up.run
                     case Err(e) => |op.events| == 1 && op.error == Some(e)
                     case Ok(r) => |op.events| == 2 && Answered(op.events[1], r, s.portals[name].formats) && op.error == None)
  {
    hide DescribeEvents, Answered, GoodCodes;
    if name in s.portals { DescribesText(s.portals[name].query, s.portals[name].formats, up); }
  }

  // -------------------------------------------------------------------- Parse

  /** Parameter types can be inferred: there are none, or the statement does not
      parse, or the schema it needs can be read. */
  predicate Inferable(n: nat, up: Upstream) {
    n == 0 || up.stmt.None? || !ParameterOids.NeedsSchema(up.stmt.value) || up.schema.Ok?
  }

  lemma InfersExactly(query: string, oids: seq<nat>, up: Upstream)
    requires BindSql(query, Postgres, [], true).Ok? && BindSql(query, Postgres, [], true).value.count == |oids|
    ensures ParameterOids.Infer(query, oids, up.stmt, up.schema).Ok? <==> Inferable(|oids|, up)
  {
    hide BindSql, ParameterOids.SetAll, ParameterOids.Places, ParameterOids.Sentinel;
    BindSqlArity(query, Postgres, ParameterOids.Sentinels(|oids|));
  }

  /** When a Parse stores its statement. */
  predicate Parsable(s: State, m: Message, up: Upstream)
    requires m.Parse?
  {
    && (m.name == "" || (|s.statements| < 1024 && m.name !in s.statements))
    && BindSql(m.query, Postgres, [], true).Ok?
    && |m.oids| <= BindSql(m.query, Postgres, [], true).value.count
    && Inferable(BindSql(m.query, Postgres, [], true).value.count, up)
  }

  /** `oids` has a type for each of `n` parameters, those given among them. */
  predicate Typed(oids: seq<nat>, given: seq<nat>, n: nat) {
    && |oids| == n && (forall i :: 0 <= i < n ==> oids[i] != 0)
    && forall i :: 0 <= i < |given| && i < n && given[i] != 0 ==> oids[i] == given[i]
  }

  lemma InferredTypes(query: string, given: seq<nat>, n: nat, up: Upstream)
    requires |given| <= n && ParameterOids.Infer(query, PadOids(given, n), up.stmt, up.schema).Ok?
    ensures Typed(ParameterOids.Infer(query, PadOids(given, n), up.stmt, up.schema).value, given, n)
  {
    hide ParameterOids.Infer;
    ParameterOids.InferFrame(query, PadOids(given, n), up.stmt, up.schema);
  }

  /** The schema read to infer types: that of the statement's table, if it has one
      and there is a type to infer. */
  function Reads(m: Message, up: Upstream): seq<Event>
    requires m.Parse? && BindSql(m.query, Postgres, [], true).Ok?
  {
    if BindSql(m.query, Postgres, [], true).value.count > 0 && up.stmt.Some? && up.stmt.value.table != ""
       && up.stmt.value.table != "dual"
    then [ReadSchema(up.stmt.value.table, 0)] else []
  }

  lemma ReadsExactly(m: Message, up: Upstream)
    requires m.Parse? && BindSql(m.query, Postgres, [], true).Ok?
    requires |m.oids| <= BindSql(m.query, Postgres, [], true).value.count
    ensures SchemaReads(m.query, PadOids(m.oids, BindSql(m.query, Postgres, [], true).value.count), up.stmt) == Reads(m, up)
  {
    hide BindSql, ParameterOids.Sentinel, PadOids;
    var n := BindSql(m.query, Postgres, [], true).value.count;
    BindSqlArity(m.query, Postgres, ParameterOids.Sentinels(n));
  }

  /** Parse in full: the query stored with a type for every parameter, replacing only
      an unnamed statement; or an error and nothing changed. */
  lemma ParsesExactly(s: State, m: Message, up: Upstream, lib: FloatLib)
    requires ValidPortals(s) && m.Parse?
    ensures var op := Operate(s, m, up, lib);
            if Parsable(s, m, up) then
              && op.error == None && op.events == Reads(m, up) + [Sent(ParseComplete, 0)]
              && m.name in op.state.statements
              && (var st := op.state.statements[m.name];
                 && op.state == s.(statements := s.statements[m.name := st]) && st.query == m.query
                 && Typed(st.oids, m.oids, BindSql(m.query, Postgres, [], true).value.count))
            else op.state == s && op.error.Some?
  {
    hide BindSql, ParameterOids.Infer, Inferable, PadOids, SchemaReads, Typed, Reads;
    var b := BindSql(m.query, Postgres, [], true);
    if b.Ok? && |m.oids| <= b.value.count {
      InfersExactly(m.query, PadOids(m.oids, b.value.count), up);
      ReadsExactly(m, up);
      if Inferable(b.value.count, up) { InferredTypes(m.query, m.oids, b.value.count, up); }
    }
  }

  // -------------------------------------------------------------------- Query

  lemma BlankQuery(s: State, sql: string, up: Upstream, lib: FloatLib)
    requires ValidPortals(s) && TrimSpace(sql) == ""
    ensures Operate(s, Message.Query(sql), up, lib) == Op(s, [Sent(EmptyQueryResponse, 0), Sent(ReadyForQuery, 0)], None)
  {
    hide TrimSpace;
  }

  /** `es` are the rows of a result as data rows, in text. */
  predicate RowsSent(es: seq<Event>, rs: ResultSet, lib: FloatLib)
    requires Rectangular(rs)
  {
    |es| == |rs.rows| && forall k :: 0 <= k < |es| ==> RowEvent(es[k], rs, k, lib)
  }

  predicate RowEvent(e: Event, rs: ResultSet, k: nat, lib: FloatLib)
    requires Rectangular(rs) && k < |rs.rows|
  {
    e.Sent? && e.portal == 0 && e.reply.DataRow? && RowSent(e.reply.values, rs.rows[k], rs.columns, [], lib)
  }

  /** Every cell of a result can be sent in text. */
  predicate Sendable(rs: ResultSet, lib: FloatLib)
    requires Rectangular(rs)
  {
    forall k, i :: 0 <= k < |rs.rows| && 0 <= i < |rs.columns| ==>
      PgValue(rs.rows[k][i], PgOid(rs.columns[i].kind), 0, lib).Ok?
  }

  lemma {:induction false} SendsRows(rs: ResultSet, start: nat, lib: FloatLib)
    requires Rectangular(rs) && start <= |rs.rows| && Sendable(rs, lib)
    ensures var o := SendRows(rs, start, |rs.rows|, [], 0, lib);
            && o.error == None && |o.events| == |rs.rows| - start
            && forall k :: 0 <= k < |o.events| ==> RowEvent(o.events[k], rs, start + k, lib)
    decreases |rs.rows| - start
  {
    hide EncodeRow, RowSent, PgValue, PgOid;
    if start < |rs.rows| {
      SendsRows(rs, start + 1, lib);
      SendsRow(rs, start, lib);
      var rest := SendRows(rs, start + 1, |rs.rows|, [], 0, lib).events;
      var o := SendRows(rs, start, |rs.rows|, [], 0, lib).events;
      forall k | 0 <= k < |o| ensures RowEvent(o[k], rs, start + k, lib) {
        if k > 0 { assert RowEvent(rest[k - 1], rs, start + 1 + (k - 1), lib); }
      }
    }
  }

  lemma SendsRow(rs: ResultSet, k: nat, lib: FloatLib)
    requires Rectangular(rs) && k < |rs.rows| && Sendable(rs, lib)
    ensures EncodeRow(rs.rows[k], rs.columns, [], 0, lib).Ok?
    ensures RowSent(EncodeRow(rs.rows[k], rs.columns, [], 0, lib).value, rs.rows[k], rs.columns, [], lib)
  {
    hide EncodeRow, RowSent, PgValue, PgOid;
    RowsEncoded(rs.rows[k], rs.columns, [], lib);
    forall i | 0 <= i < |rs.columns|
      ensures PgValue(rs.rows[k][i], PgOid(rs.columns[i].kind), CodeOf([], |rs.columns|, i), lib).Ok?
    {
      assert CodeOf([], |rs.columns|, i) == 0;
    }
  }

  /** A simple query in full: the query without parameters is run, its columns and
      rows are sent in text, then its tag, or else an error; ReadyForQuery always. */
  lemma QueriesExactly(s: State, sql: string, up: Upstream, lib: FloatLib)
    requires ValidPortals(s) && TrimSpace(sql) != ""
    requires up.run.Ok? && up.run.value.resultset.Some? ==> Sendable(up.run.value.resultset.value, lib)
    ensures var op := Operate(s, Message.Query(sql), up, lib);
            var b := BindSql(sql, Postgres, [], false);
            var ready := Sent(ReadyForQuery, 0);
            && op.state == s && op.error == None
            && (b.Err? ==> op.events == [Sent(ErrorResponse(b.reason), 0), ready])
            && (b.Ok? && up.run.Err? ==>
                  op.events == [Ran(b.value.text, false, 0), Sent(ErrorResponse(up.run.reason), 0), ready])
            && (b.Ok? && up.run.Ok? ==>
                  var r, n := up.run.value, |op.events|;
                  var done := Sent(CommandComplete(PgTag(b.value.text, r)), 0);
                  if r.resultset.None? then op.events == [Ran(b.value.text, false, 0), done, ready]
                  else
                    && n == |r.resultset.value.rows| + 4
                    && op.events[0] == Ran(b.value.text, false, 0)
                    && op.events[1].Sent? && op.events[1].portal == 0 && op.events[1].reply.RowDescription?
                    && Announces(op.events[1].reply.columns, r.resultset.value.columns, [])
                    && RowsSent(op.events[2..n - 2], r.resultset.value, lib)
                    && op.events[n - 2] == done && op.events[n - 1] == ready)
  {
    hide BindSql, SendRows, PgTag, Announces, RowEvent, Sendable, PgDescription, TrimSpace;
    var b := BindSql(sql, Postgres, [], false);
    if b.Ok? && up.run.Ok? && up.run.value.resultset.Some? {
      var rs := up.run.value.resultset.value;
      SendsRows(rs, 0, lib);
      AnnouncesExactly(rs.columns, []);
      var rows := SendRows(rs, 0, |rs.rows|, [], 0, lib).events;
      var head := [Ran(b.value.text, false, 0), Sent(RowDescription(PgDescription(rs.columns, [])), 0)];
      var tail := [Sent(CommandComplete(PgTag(b.value.text, up.run.value)), 0), Sent(ReadyForQuery, 0)];
      var op := Operate(s, Message.Query(sql), up, lib);
      assert op.events == head + rows + tail;
      assert (head + rows + tail)[2..|rows| + 2] == rows;
      forall k | 0 <= k < |rows| ensures RowEvent(rows[k], rs, k, lib) {
        assert RowEvent(rows[k], rs, 0 + k, lib);
      }
    }
  }

  // ----------------------------------------------------------- Execute and Close

  /** Executing a portal whose query has no rows runs it once and completes it. */
  lemma ExecutesOnce(s: State, name: string, maxRows: nat, up: Upstream, lib: FloatLib)
    requires ValidPortals(s)
    ensures var op := Operate(s, Execute(name, maxRows), up, lib);
            && (name !in s.portals ==> op.state == s && op.events == [] && op.error.Some?)
            && (name in s.portals && s.portals[name].result.None? && up.run.Err? ==>
                  && op.events == [Ran(s.portals[name].query, false, s.portals[name].id)]
                  && op.error == Some(up.run.reason) && op.state.statements == s.statements)
            && (name in s.portals && s.portals[name].result.None? && up.run.Ok? && up.run.value.resultset.None? ==>
                  var p := s.portals[name];
                  && op.error == None
                  && op.events == [Ran(p.query, false, p.id), Sent(CommandComplete(PgTag(p.query, up.run.value)), p.id)]
                  && op.state == s.(portals := s.portals[name := p.(result := Some(up.run.value), completed := true)]))
  {
    hide SendRows, PgTag;
  }

  /** Close forgets what it names and nothing else, and never fails for a statement or
      portal. */
  lemma ClosesExactly(s: State, name: string, up: Upstream, lib: FloatLib)
    requires ValidPortals(s)
    ensures var op := Operate(s, Close('S', name), up, lib);
            && op.error == None && op.events == [Sent(CloseComplete, 0)]
            && op.state == s.(statements := op.state.statements) && name !in op.state.statements
            && forall n :: n in s.statements && n != name ==> n in op.state.statements && op.state.statements[n] == s.statements[n]
    ensures var op := Operate(s, Close('P', name), up, lib);
            && op.error == None && op.events == [Sent(CloseComplete, 0)]
            && op.state == s.(portals := op.state.portals) && name !in op.state.portals
            && forall n :: n in s.portals && n != name ==> n in op.state.portals && op.state.portals[n] == s.portals[n]
  {
  }

  /** The remaining messages: Sync drops every portal and ends an error, Terminate ends
      the session, Flush does nothing, and what is not known is an error. */
  lemma OthersExactly(s: State, target: char, name: string, up: Upstream, lib: FloatLib)
    requires ValidPortals(s)
    ensures Step(s, Sync, up, lib)
         == Outcome(if s.closed then s else s.(failed := false, portals := map[]),
                    if s.closed then [] else [Sent(ReadyForQuery, 0)])
    ensures Step(s, Terminate, up, lib) == Outcome(if s.closed then s else s.(closed := true), [])
    ensures Step(s, Flush, up, lib) == Outcome(s, [])
    ensures Operate(s, Unsupported, up, lib).state == s && Operate(s, Unsupported, up, lib).error.Some?
    ensures target != 'S' && target != 'P' ==>
              && Operate(s, Close(target, name), up, lib).state == s && Operate(s, Close(target, name), up, lib).error.Some?
              && Operate(s, PgSession.Describe(target, name), up, lib).state == s
              && Operate(s, PgSession.Describe(target, name), up, lib).error.Some?
  {
  }

  /** A message is carried out unless the session has ended or is in error; an error is
      reported last, and then only Sync and Terminate are carried out. */
  lemma StepsExactly(s: State, m: Message, up: Upstream, lib: FloatLib)
    requires ValidPortals(s)
    ensures var o, op := Step(s, m, up, lib), Operate(s, m, up, lib);
            if s.closed || (s.failed && m != Sync && m != Terminate) then o == Outcome(s, [])
            else if op.error.None? then o == Outcome(op.state, op.events)
            else o == Outcome(op.state.(failed := true), op.events + [Sent(ErrorResponse(op.error.value), 0)])
  {
    hide Operate;
  }
}
