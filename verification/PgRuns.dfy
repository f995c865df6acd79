/** What holds of a PostgreSQL session over every sequence of client messages and
    every behaviour of the upstream. */
module PgRuns {
  import opened Prelude
  import opened Literals
  import opened Lexer
  import opened Binder
  import opened Results
  import opened Wire
  import opened PgSession
  import ParameterOids

  // -------------------------------------------------------------- reading logs

  /** Real (not describing) upstream executions on behalf of a portal. */
  function Executions(log: seq<Event>, id: nat): nat {
    if log == [] then 0
    else (if log[0].Ran? && !log[0].describe && log[0].portal == id then 1 else 0) + Executions(log[1..], id)
  }

  /** The data rows sent for a portal, in order. */
  function RowsOf(log: seq<Event>, id: nat): seq<seq<Option<string>>> {
    if log == [] then []
    else
      (if log[0].Sent? && log[0].reply.DataRow? && log[0].portal == id then [log[0].reply.values] else [])
      + RowsOf(log[1..], id)
  }

  function ReadyCount(log: seq<Event>): nat {
    if log == [] then 0 else (if log[0].Sent? && log[0].reply == ReadyForQuery then 1 else 0) + ReadyCount(log[1..])
  }

  lemma {:induction false} LogAppend(a: seq<Event>, b: seq<Event>, id: nat)
    ensures Executions(a + b, id) == Executions(a, id) + Executions(b, id)
    ensures RowsOf(a + b, id) == RowsOf(a, id) + RowsOf(b, id)
    ensures ReadyCount(a + b) == ReadyCount(a) + ReadyCount(b)
    decreases |a|
  {
    if a == [] {
      assert a + b == b;
    } else {
      AppendTail(a, b);
      LogAppend(a[1..], b, id);
    }
  }

  /** No event belongs to a portal other than `id`. */
  predicate Only(log: seq<Event>, id: nat) {
    forall k :: 0 <= k < |log| ==> log[k].portal == 0 || log[k].portal == id
  }

  predicate NeverReady(log: seq<Event>) {
    forall k :: 0 <= k < |log| ==> !(log[k].Sent? && log[k].reply == ReadyForQuery)
  }

  lemma {:induction false} NeverReadyCount(log: seq<Event>)
    requires NeverReady(log)
    ensures ReadyCount(log) == 0
  {
    if log != [] { NeverReadyCount(log[1..]); }
  }

  lemma {:induction false} OtherPortals(log: seq<Event>, id: nat, other: nat)
    requires Only(log, id) && other != id && other != 0
    ensures Executions(log, other) == 0 && RowsOf(log, other) == []
  {
    if log != [] { OtherPortals(log[1..], id, other); }
  }

  // --------------------------------------------------------------- invariants

  /** A stored statement has one type per placeholder of its query. */
  predicate Prepared(st: Stored) {
    BindSql(st.query, Postgres, [], true).Ok? && BindSql(st.query, Postgres, [], true).value.count == |st.oids|
  }

  predicate AllPrepared(s: State) {
    forall n :: n in s.statements ==> Prepared(s.statements[n])
  }

  predicate Bounded(s: State) {
    && |s.statements.Keys - {""}| <= MAX_NAMED && |s.statements| <= MAX_NAMED + 1
    && |s.portals.Keys - {""}| <= MAX_NAMED && |s.portals| <= MAX_NAMED + 1
  }

  /** The rows sent are the first rows of the result, encoded. */
  predicate RowsMatch(sent: seq<seq<Option<string>>>, r: ResultSet, formats: seq<int>, lib: FloatLib)
    requires Rectangular(r)
  {
    |sent| <= |r.rows| &&
    forall j :: 0 <= j < |sent| ==> EncodeRow(r.rows[j], r.columns, formats, 0, lib) == Ok(sent[j])
  }

  /** How a live portal and the log agree. After an error the cursor may be ahead
      of the rows sent, but then the portal is never used again. */
  predicate Logged(p: Portal, failed: bool, log: seq<Event>, lib: FloatLib) {
    var sent := RowsOf(log, p.id);
    && Executions(log, p.id) <= 1
    && (p.result.Some? ==> Executions(log, p.id) == 1)
    && (p.result.None? && !failed ==> Executions(log, p.id) == 0)
    && (p.result.None? || p.result.value.resultset.None? ==> sent == [])
    && (p.result.Some? && p.result.value.resultset.Some? ==>
          && RowsMatch(sent, p.result.value.resultset.value, p.formats, lib)
          && |sent| <= p.pos && (!failed ==> |sent| == p.pos))
  }

  predicate Numbered(s: State) {
    && (forall n :: n in s.portals ==> 1 <= s.portals[n].id < s.nextId)
    && (forall n, m :: n in s.portals && m in s.portals && n != m ==> s.portals[n].id != s.portals[m].id)
  }

  predicate AllLogged(s: State, log: seq<Event>, lib: FloatLib) {
    forall n :: n in s.portals ==> Logged(s.portals[n], s.failed, log, lib)
  }

  ghost predicate Fresh(s: State, log: seq<Event>) {
    && (forall id: nat :: id >= s.nextId ==> Executions(log, id) == 0 && RowsOf(log, id) == [])
    && (forall id: nat :: id >= 1 ==> Executions(log, id) <= 1)
  }

  ghost predicate Inv(s: State, log: seq<Event>, lib: FloatLib) {
    && s.nextId >= 1
    && ValidPortals(s) && AllPrepared(s) && Bounded(s) && Numbered(s) && AllLogged(s, log, lib) && Fresh(s, log)
  }

  // ------------------------------------------------------------- sending rows

  /** `events` are the rows from `start` on, encoded. */
  predicate RowEvents(events: seq<Event>, r: ResultSet, start: nat, formats: seq<int>, portal: nat, lib: FloatLib)
    requires Rectangular(r)
  {
    start + |events| <= |r.rows| &&
    forall j :: 0 <= j < |events| ==> IsRowEvent(events[j], r, start + j, formats, portal, lib)
  }

  predicate IsRowEvent(e: Event, r: ResultSet, k: nat, formats: seq<int>, portal: nat, lib: FloatLib)
    requires Rectangular(r) && k < |r.rows|
  {
    e.Sent? && e.portal == portal && e.reply.DataRow?
    && EncodeRow(r.rows[k], r.columns, formats, 0, lib) == Ok(e.reply.values)
  }

  lemma {:induction false} SendRowsEvents(r: ResultSet, start: nat, end: nat, formats: seq<int>, portal: nat, lib: FloatLib)
    requires Rectangular(r) && start <= end <= |r.rows|
    ensures var o := SendRows(r, start, end, formats, portal, lib);
            && RowEvents(o.events, r, start, formats, portal, lib)
            && |o.events| <= end - start && (o.error.None? <==> |o.events| == end - start)
    decreases end - start
  {
    hide EncodeRow;
    if start < end && EncodeRow(r.rows[start], r.columns, formats, 0, lib).Ok? {
      SendRowsEvents(r, start + 1, end, formats, portal, lib);
      var rest := SendRows(r, start + 1, end, formats, portal, lib);
      var head := Sent(DataRow(EncodeRow(r.rows[start], r.columns, formats, 0, lib).value), portal);
      var events := [head] + rest.events;
      forall j | 0 <= j < |events| ensures IsRowEvent(events[j], r, start + j, formats, portal, lib) {
        if j > 0 { assert IsRowEvent(rest.events[j - 1], r, start + 1 + (j - 1), formats, portal, lib); }
      }
    }
  }

  lemma {:induction false} RowEventsLogged(events: seq<Event>, r: ResultSet, start: nat, formats: seq<int>, portal: nat,
                                           lib: FloatLib)
    requires Rectangular(r) && RowEvents(events, r, start, formats, portal, lib)
    ensures Only(events, portal) && NeverReady(events) && Executions(events, portal) == 0
    ensures |RowsOf(events, portal)| == |events|
    ensures forall j :: 0 <= j < |events| ==>
              EncodeRow(r.rows[start + j], r.columns, formats, 0, lib) == Ok(RowsOf(events, portal)[j])
    decreases |events|
  {
    hide EncodeRow;
    if events != [] {
      var rest := events[1..];
      forall j | 0 <= j < |rest| ensures IsRowEvent(rest[j], r, start + 1 + j, formats, portal, lib) {
        assert IsRowEvent(events[j + 1], r, start + (j + 1), formats, portal, lib);
      }
      assert IsRowEvent(events[0], r, start + 0, formats, portal, lib);
      RowEventsLogged(rest, r, start + 1, formats, portal, lib);
      assert RowsOf(events, portal) == [events[0].reply.values] + RowsOf(rest, portal);
      forall j | 0 <= j < |events|
        ensures EncodeRow(r.rows[start + j], r.columns, formats, 0, lib) == Ok(RowsOf(events, portal)[j])
      {
        if j > 0 { assert r.rows[start + 1 + (j - 1)] == r.rows[start + j]; }
      }
    }
  }

  lemma SendRowsMatch(r: ResultSet, start: nat, end: nat, formats: seq<int>, portal: nat, lib: FloatLib)
    requires Rectangular(r) && start <= end <= |r.rows|
    ensures var o := SendRows(r, start, end, formats, portal, lib);
            && Only(o.events, portal) && Executions(o.events, portal) == 0 && NeverReady(o.events)
            && |RowsOf(o.events, portal)| == |o.events| <= end - start
            && (o.error.None? <==> |o.events| == end - start)
            && (forall j :: 0 <= j < |o.events| ==>
                  EncodeRow(r.rows[start + j], r.columns, formats, 0, lib) == Ok(RowsOf(o.events, portal)[j]))
  {
    hide *;
    SendRowsEvents(r, start, end, formats, portal, lib);
    RowEventsBound(r, start, end, formats, portal, lib);
    RowEventsLogged(SendRows(r, start, end, formats, portal, lib).events, r, start, formats, portal, lib);
  }

  lemma RowEventsBound(r: ResultSet, start: nat, end: nat, formats: seq<int>, portal: nat, lib: FloatLib)
    requires Rectangular(r) && start <= end <= |r.rows|
    requires RowEvents(SendRows(r, start, end, formats, portal, lib).events, r, start, formats, portal, lib)
    ensures start + |SendRows(r, start, end, formats, portal, lib).events| <= |r.rows|
  {
  }

  /** What one page adds to the log of its portal. */
  lemma NextPageLogged(p: Portal, maxRows: nat, lib: FloatLib, log: seq<Event>)
    requires ValidPortal(p) && p.result.Some? && Logged(p, false, log, lib)
    ensures var op := NextPage(p, maxRows, lib);
            && ValidPortal(op.portal) && op.portal.id == p.id && op.portal.formats == p.formats
            && Only(op.events, p.id) && Executions(op.events, p.id) == 0
            && Logged(op.portal, op.error.Some?, log + op.events, lib)
  {
    hide EncodeRow, SendRows, PgTag, Executions, RowsOf, ReadyCount;
    var r, op := p.result.value, NextPage(p, maxRows, lib);
    LogAppend(log, op.events, p.id);
    OneEvent(Sent(CommandComplete(PgTag(p.query, r)), p.id), p.id);
    OneEvent(Sent(PortalSuspended, p.id), p.id);
    if r.resultset.Some? && !p.completed {
      var rs := r.resultset.value;
      var end := PageEnd(|rs.rows|, p.pos, maxRows);
      var rows := SendRows(rs, p.pos, end, p.formats, p.id, lib);
      SendRowsMatch(rs, p.pos, end, p.formats, p.id, lib);
      LogAppend(rows.events, [Sent(CommandComplete(PgTag(p.query, r)), p.id)], p.id);
      LogAppend(rows.events, [Sent(PortalSuspended, p.id)], p.id);
      RowsExtend(RowsOf(log, p.id), RowsOf(rows.events, p.id), p.pos, rs, p.formats, lib);
    }
  }

  lemma OneEvent(e: Event, id: nat)
    requires e.Sent? && !e.reply.DataRow?
    ensures Executions([e], id) == 0 && RowsOf([e], id) == []
  {
    assert [e][1..] == [];
  }

  lemma RowsExtend(sent: seq<seq<Option<string>>>, more: seq<seq<Option<string>>>, pos: nat, r: ResultSet,
                   formats: seq<int>, lib: FloatLib)
    requires Rectangular(r) && RowsMatch(sent, r, formats, lib) && |sent| == pos && pos + |more| <= |r.rows|
    requires forall j :: 0 <= j < |more| ==> EncodeRow(r.rows[pos + j], r.columns, formats, 0, lib) == Ok(more[j])
    ensures RowsMatch(sent + more, r, formats, lib)
    ensures sent + more + [] == sent + more && more + [] == more && sent + [] == sent
  {
    hide EncodeRow;
    forall j | 0 <= j < |sent + more|
      ensures EncodeRow(r.rows[j], r.columns, formats, 0, lib) == Ok((sent + more)[j])
    {
      if j >= pos { assert r.rows[pos + (j - pos)] == r.rows[j]; }
    }
  }

  lemma ExecutePortalLogged(p: Portal, maxRows: nat, up: Upstream, lib: FloatLib, log: seq<Event>)
    requires ValidPortal(p) && Logged(p, false, log, lib)
    ensures var op := ExecutePortal(p, maxRows, up, lib);
            && ValidPortal(op.portal) && op.portal.id == p.id
            && Only(op.events, p.id)
            && Logged(op.portal, op.error.Some?, log + op.events, lib)
  {
    hide NextPage, Executions, RowsOf, SendRows, EncodeRow;
    var ran := [Ran(p.query, false, p.id)];
    if p.result.Some? {
      NextPageLogged(p, maxRows, lib, log);
    } else {
      RanOnce(ran, p);
      LogAppend(log, ran, p.id);
      if up.run.Ok? {
        var q := p.(result := Some(up.run.value));
        assert RowsOf(log, p.id) + [] == [];
        NextPageLogged(q, maxRows, lib, log + ran);
        Assoc(log, ran, NextPage(q, maxRows, lib).events);
      }
    }
  }

  lemma RanOnce(ran: seq<Event>, p: Portal)
    requires ran == [Ran(p.query, false, p.id)]
    ensures Executions(ran, p.id) == 1 && RowsOf(ran, p.id) == [] && Only(ran, p.id)
  {
    assert ran[1..] == [];
  }

  // ------------------------------------------------- each step keeps the invariant

  /** Appending events of one portal to the log changes nothing for the others. */
  lemma LoggedElsewhere(p: Portal, failed: bool, failed': bool, log: seq<Event>, events: seq<Event>, id: nat, lib: FloatLib)
    requires Logged(p, failed, log, lib) && p.id != id && p.id >= 1 && Only(events, id) && (failed ==> failed')
    ensures Logged(p, failed', log + events, lib)
  {
    hide Executions, RowsOf, EncodeRow;
    LogAppend(log, events, p.id);
    OtherPortals(events, id, p.id);
    assert RowsOf(log, p.id) + [] == RowsOf(log, p.id);
  }

  lemma FreshElsewhere(s: State, log: seq<Event>, events: seq<Event>, id: nat)
    requires s.nextId >= 1 && Fresh(s, log) && Only(events, id) && id < s.nextId
    requires id >= 1 ==> Executions(log + events, id) <= 1
    ensures Fresh(s, log + events)
  {
    hide Executions, RowsOf, Only;
    forall other: nat | other >= 1
      ensures Executions(log + events, other) <= 1
      ensures other >= s.nextId ==> Executions(log + events, other) == 0 && RowsOf(log + events, other) == []
    {
      LogAppend(log, events, other);
      if other != id { OtherPortals(events, id, other); }
    }
  }

  lemma AllLoggedElsewhere(s: State, s': State, log: seq<Event>, events: seq<Event>, id: nat, lib: FloatLib)
    requires AllLogged(s, log, lib) && Numbered(s) && Only(events, id) && (s.failed ==> s'.failed)
    requires forall n :: n in s'.portals ==> n in s.portals && s'.portals[n] == s.portals[n] && s.portals[n].id != id
    ensures AllLogged(s', log + events, lib)
  {
    hide Executions, RowsOf, Logged, Only;
    forall n | n in s'.portals ensures Logged(s'.portals[n], s'.failed, log + events, lib) {
      LoggedElsewhere(s.portals[n], s.failed, s'.failed, log, events, id, lib);
    }
  }

  /** The portals of `s'` are among those of `s`. */
  lemma FewerPortals(s: State, s': State)
    requires ValidPortals(s) && Numbered(s) && s'.nextId == s.nextId
    requires forall n :: n in s'.portals ==> n in s.portals && s'.portals[n] == s.portals[n]
    ensures ValidPortals(s') && Numbered(s')
    ensures forall n :: n in s'.portals ==> s'.portals[n].id >= 1
  {
    hide ValidPortal;
  }

  /** A step that adds no portal and logs nothing for one. */
  lemma QuietStep(s: State, s': State, log: seq<Event>, events: seq<Event>, lib: FloatLib)
    requires Inv(s, log, lib)
    requires s'.nextId == s.nextId && (s.failed ==> s'.failed)
    requires forall n :: n in s'.portals ==> n in s.portals && s'.portals[n] == s.portals[n]
    requires AllPrepared(s') && Bounded(s') && Only(events, 0)
    ensures Inv(s', log + events, lib)
  {
    hide Executions, AllLogged, ValidPortals, Numbered, AllPrepared, Bounded, Only, Fresh;
    FewerPortals(s, s');
    AllLoggedElsewhere(s, s', log, events, 0, lib);
    FreshElsewhere(s, log, events, 0);
    SameFresh(s, s', log + events);
  }

  lemma SameFresh(s: State, s': State, log: seq<Event>)
    requires Fresh(s, log) && s'.nextId == s.nextId
    ensures Fresh(s', log)
  {
  }

  lemma QueryStep(s: State, sql: string, up: Upstream, lib: FloatLib)
    ensures var op := QueryEvents(sql, up, lib); Only(op.events, 0) && NeverReady(op.events)
  {
    hide SendRows, PgTag, BindSql, TrimSpace, EncodeRow, PgDescription;
    if up.run.Ok? && up.run.value.resultset.Some? {
      var rs := up.run.value.resultset.value;
      SendRowsMatch(rs, 0, |rs.rows|, [], 0, lib);
    }
  }

  lemma NamedSize<T>(m: map<string, T>, name: string, v: T)
    requires |m.Keys - {""}| <= MAX_NAMED && |m| <= MAX_NAMED + 1
    requires |m| < MAX_NAMED || name == ""
    ensures |m[name := v].Keys - {""}| <= MAX_NAMED && |m[name := v]| <= MAX_NAMED + 1
  {
    var m' := m[name := v];
    assert m'.Keys == m.Keys + {name};
    if name == "" {
      assert m'.Keys - {""} == m.Keys - {""};
      assert m'.Keys == (m.Keys - {""}) + {""};
    } else {
      assert m'.Keys - {""} <= m'.Keys;
      Smaller(m'.Keys - {""}, m'.Keys);
    }
  }

  lemma {:induction false} Smaller<T>(a: set<T>, b: set<T>)
    requires a <= b
    ensures |a| <= |b|
  {
    if a != {} {
      var x :| x in a;
      Smaller(a - {x}, b - {x});
    }
  }

  lemma RemovedSize<T>(m: map<string, T>, names: set<string>)
    requires |m.Keys - {""}| <= MAX_NAMED && |m| <= MAX_NAMED + 1
    ensures |(m - names).Keys - {""}| <= MAX_NAMED && |m - names| <= MAX_NAMED + 1
  {
    Smaller((m - names).Keys - {""}, m.Keys - {""});
    Smaller((m - names).Keys, m.Keys);
  }

  lemma ParsePrepared(s: State, name: string, query: string, given: seq<nat>, up: Upstream)
    requires AllPrepared(s)
    ensures AllPrepared(ParseOp(s, name, query, given, up).state)
  {
    hide BindSql, ParameterOids.Infer;
  }

  lemma ParseBounded(s: State, name: string, query: string, given: seq<nat>, up: Upstream)
    requires Bounded(s)
    ensures Bounded(ParseOp(s, name, query, given, up).state)
  {
    hide BindSql, ParameterOids.Infer, PadOids;
    var op := ParseOp(s, name, query, given, up);
    if op.error.None? {
      NamedSize(s.statements, name, op.state.statements[name]);
    }
  }

  lemma ParseQuiet(s: State, name: string, query: string, given: seq<nat>, up: Upstream)
    ensures var op := ParseOp(s, name, query, given, up);
            && Only(op.events, 0)
            && op.state.portals == s.portals && op.state.nextId == s.nextId && op.state.failed == s.failed
  {
    hide BindSql, ParameterOids.Infer;
  }

  lemma ParseStep(s: State, name: string, query: string, given: seq<nat>, up: Upstream)
    requires AllPrepared(s) && Bounded(s)
    ensures var op := ParseOp(s, name, query, given, up);
            && AllPrepared(op.state) && Bounded(op.state) && Only(op.events, 0)
            && op.state.portals == s.portals && op.state.nextId == s.nextId && op.state.failed == s.failed
  {
    hide *;
    ParsePrepared(s, name, query, given, up);
    ParseBounded(s, name, query, given, up);
    ParseQuiet(s, name, query, given, up);
  }

  lemma DescribeStep(s: State, target: char, name: string, up: Upstream)
    ensures var op := DescribeOp(s, target, name, up); Only(op.events, 0) && op.state == s
  {
    hide BindSql;
  }

  /** A newly bound portal has no past in the log. */
  lemma NewPortal(s: State, s': State, name: string, p: Portal, log: seq<Event>, lib: FloatLib)
    requires Inv(s, log, lib) && !s.failed && s'.portals == s.portals[name := p] && s'.nextId == s.nextId + 1
    requires p.id == s.nextId && p.result.None? && p.pos == 0 && !p.completed && !s'.failed
    requires s'.statements == s.statements && Bounded(s')
    ensures Inv(s', log, lib)
  {
    hide Executions, RowsOf, Prepared, Bounded, ValidPortal, EncodeRow;
    assert ValidPortal(p) by { NewIsValid(p); }
    assert Executions(log, p.id) == 0 && RowsOf(log, p.id) == [];
    forall n | n in s'.portals ensures Logged(s'.portals[n], s'.failed, log, lib) {
      if n != name { assert Logged(s.portals[n], s.failed, log, lib); }
    }
  }

  lemma NewIsValid(p: Portal)
    requires p.result.None? && p.pos == 0 && !p.completed
    ensures ValidPortal(p)
  {
  }

  lemma BindFacts(s: State, m: Message, up: Upstream, lib: FloatLib)
    requires m.Bind?
    ensures var op := BindOp(s, m, up, lib);
            && Only(op.events, 0)
            && (op.error.Some? ==> op.state == s)
            && (op.error.None? ==>
                  && m.portal in op.state.portals
                  && (var p := op.state.portals[m.portal];
                     && op.state == s.(portals := s.portals[m.portal := p], nextId := s.nextId + 1)
                     && p.id == s.nextId && p.result.None? && p.pos == 0 && !p.completed)
                  && (|s.portals| < MAX_NAMED || m.portal == ""))
  {
    hide BindSql, ValidFormats, BoundText;
  }

  lemma BindBounded(s: State, s': State, name: string, p: Portal)
    requires Bounded(s) && (|s.portals| < MAX_NAMED || name == "")
    requires s'.statements == s.statements && s'.portals == s.portals[name := p]
    ensures Bounded(s')
  {
    NamedSize(s.portals, name, p);
  }

  lemma BindStep(s: State, m: Message, up: Upstream, lib: FloatLib, log: seq<Event>)
    requires m.Bind? && Inv(s, log, lib) && !s.failed
    ensures var op := BindOp(s, m, up, lib);
            Only(op.events, 0) && Inv(op.state.(failed := op.error.Some?), log + op.events, lib)
  {
    hide BindOp, Fresh, AllLogged, Numbered, AllPrepared, ValidPortals, Only, Bounded;
    var op := BindOp(s, m, up, lib);
    BindFacts(s, m, up, lib);
    PreparedAnyway(s);
    if op.error.Some? {
      QuietStep(s, s.(failed := true), log, op.events, lib);
    } else {
      QuietStep(s, s, log, op.events, lib);
      BindBounded(s, op.state, m.portal, op.state.portals[m.portal]);
      assert op.state.(failed := false) == op.state;
      NewPortal(s, op.state, m.portal, op.state.portals[m.portal], log + op.events, lib);
    }
  }

  /** One portal moved on; the others and the rest of the session did not. */
  lemma MovedNumbered(s: State, s': State, name: string, p': Portal)
    requires ValidPortals(s) && Numbered(s) && name in s.portals
    requires s'.portals == s.portals[name := p'] && s'.nextId == s.nextId
    requires ValidPortal(p') && p'.id == s.portals[name].id
    ensures ValidPortals(s') && Numbered(s')
    ensures 1 <= p'.id < s.nextId && forall n :: n in s.portals && n != name ==> s.portals[n].id != p'.id
  {
    hide ValidPortal;
  }

  lemma SamePrepared(s: State, s': State)
    requires AllPrepared(s) && s'.statements == s.statements
    ensures AllPrepared(s')
  {
    hide Prepared;
  }

  lemma SameBounded(s: State, s': State, name: string, p': Portal)
    requires Bounded(s) && name in s.portals
    requires s'.statements == s.statements && s'.portals == s.portals[name := p']
    ensures Bounded(s')
  {
    assert s'.portals.Keys == s.portals.Keys;
    assert |s'.portals| == |s'.portals.Keys| && |s.portals| == |s.portals.Keys|;
  }

  lemma MovedPortal(s: State, s': State, name: string, p': Portal, log: seq<Event>, events: seq<Event>, lib: FloatLib)
    requires Inv(s, log, lib) && !s.failed && name in s.portals
    requires s' == s.(portals := s.portals[name := p'], failed := s'.failed)
    requires ValidPortal(p') && p'.id == s.portals[name].id && Only(events, p'.id)
    requires Logged(p', s'.failed, log + events, lib)
    ensures Inv(s', log + events, lib)
  {
    hide ValidPortals, AllPrepared, Bounded, Numbered, Fresh, Executions, RowsOf, ValidPortal, Logged, Only;
    MovedNumbered(s, s', name, p');
    SamePrepared(s, s');
    SameBounded(s, s', name, p');
    LoggedOnce(p', s'.failed, log + events, lib);
    FreshElsewhere(s, log, events, p'.id);
    SameFresh(s, s', log + events);
    forall n | n in s'.portals ensures Logged(s'.portals[n], s'.failed, log + events, lib) {
      if n != name {
        ValidId(s, n);
        LoggedElsewhere(s.portals[n], false, s'.failed, log, events, p'.id, lib);
      }
    }
  }

  lemma ValidId(s: State, n: string)
    requires ValidPortals(s) && n in s.portals
    ensures s.portals[n].id >= 1
  {
  }

  lemma ExecuteStep(s: State, name: string, maxRows: nat, up: Upstream, lib: FloatLib, log: seq<Event>)
    requires Inv(s, log, lib) && !s.failed
    ensures var op := ExecuteOp(s, name, maxRows, up, lib);
            Inv(op.state.(failed := op.error.Some?), log + op.events, lib)
  {
    hide ExecutePortal, Executions, RowsOf, Logged, AllPrepared, ValidPortal, Bounded, Fresh, Numbered, Only;
    var op := ExecuteOp(s, name, maxRows, up, lib);
    if name !in s.portals {
      PreparedAnyway(s);
      NoEvents();
      QuietStep(s, s.(failed := true), log, [], lib);
    } else {
      var p := s.portals[name];
      assert Logged(p, false, log, lib);
      ExecutePortalLogged(p, maxRows, up, lib, log);
      MovedPortal(s, op.state.(failed := op.error.Some?), name, op.state.portals[name], log, op.events, lib);
    }
  }

  lemma NoEvents()
    ensures forall id: nat :: Only([], id)
  {
  }

  lemma LoggedOnce(p: Portal, failed: bool, log: seq<Event>, lib: FloatLib)
    requires Logged(p, failed, log, lib)
    ensures Executions(log, p.id) <= 1
  {
  }

  lemma FewerPrepared(s: State, s': State, names: set<string>)
    requires AllPrepared(s) && s'.statements == s.statements - names
    ensures AllPrepared(s')
  {
    hide Prepared;
  }

  lemma FewerNames(s: State, s': State, names: set<string>, portals: set<string>)
    requires Bounded(s)
    requires s'.statements == s.statements - names && s'.portals == s.portals - portals
    ensures Bounded(s')
  {
    RemovedSize(s.statements, names);
    RemovedSize(s.portals, portals);
  }

  lemma CloseRemoves(s: State, target: char, name: string)
    ensures var s' := CloseOp(s, target, name).state;
            && s'.statements == s.statements - (if target == 'S' then {name} else {})
            && s'.portals == s.portals - (if target == 'P' then {name} else {})
  {
    assert s.statements - {} == s.statements && s.portals - {} == s.portals;
  }

  lemma CloseBounded(s: State, target: char, name: string)
    requires AllPrepared(s) && Bounded(s)
    ensures AllPrepared(CloseOp(s, target, name).state) && Bounded(CloseOp(s, target, name).state)
  {
    hide *;
    var s' := CloseOp(s, target, name).state;
    CloseRemoves(s, target, name);
    FewerPrepared(s, s', if target == 'S' then {name} else {});
    FewerNames(s, s', if target == 'S' then {name} else {}, if target == 'P' then {name} else {});
  }

  lemma CloseStep(s: State, target: char, name: string, lib: FloatLib, log: seq<Event>)
    requires Inv(s, log, lib) && !s.failed
    ensures var op := CloseOp(s, target, name); Inv(op.state.(failed := op.error.Some?), log + op.events, lib)
  {
    hide AllLogged, AllPrepared, ValidPortals, Bounded, Fresh, Numbered;
    var op := CloseOp(s, target, name);
    CloseBounded(s, target, name);
    PreparedAnyway(op.state);
    if op.error.Some? {
      QuietStep(s, s.(failed := true), log, op.events, lib);
    } else {
      assert op.state.(failed := false) == op.state;
      QuietStep(s, op.state, log, op.events, lib);
    }
  }

  lemma SyncStep(s: State, lib: FloatLib, log: seq<Event>, events: seq<Event>)
    requires Inv(s, log, lib) && Only(events, 0)
    ensures Inv(s.(failed := false, portals := map[]), log + events, lib)
  {
    hide Executions, RowsOf, Logged, AllPrepared, ValidPortal, Bounded, Only, Fresh;
    var s' := s.(failed := false, portals := map[]);
    assert s.statements - {} == s.statements && s.portals - s.portals.Keys == map[];
    FewerPrepared(s, s', {});
    FewerNames(s, s', {}, s.portals.Keys);
    FreshElsewhere(s, log, events, 0);
    SameFresh(s, s', log + events);
  }

  /** The error report closing a failed operation. */
  lemma ErrorStep(s: State, lib: FloatLib, log: seq<Event>, message: string)
    requires Inv(s, log, lib)
    ensures Inv(s, log + [Sent(ErrorResponse(message), 0)], lib)
  {
    hide Executions, RowsOf, Logged, Prepared, ValidPortal, Bounded;
    QuietStep(s, s, log, [Sent(ErrorResponse(message), 0)], lib);
  }

  /** Every operation keeps the invariant. */
  lemma OperateInv(s: State, m: Message, up: Upstream, lib: FloatLib, log: seq<Event>)
    requires Inv(s, log, lib) && !Skipped(s, m)
    ensures var op := Operate(s, m, up, lib);
            && (op.error.None? ==> Inv(op.state, log + op.events, lib))
            && (op.error.Some? ==> Inv(op.state.(failed := true), log + op.events, lib))
  {
    hide QueryEvents, ParseOp, DescribeOp, BindOp, ExecuteOp, CloseOp, Executions, RowsOf, Logged, Prepared, ValidPortal,
      Bounded, Numbered, AllPrepared, AllLogged, Fresh;
    match m
    case Query(sql) =>
      QueryStep(s, sql, up, lib);
      QuietStep(s, s, log, Operate(s, m, up, lib).events, lib);
    case Parse(name, query, oids) =>
      ParseStep(s, name, query, oids, up);
      var op := ParseOp(s, name, query, oids, up);
      PreparedAnyway(op.state);
      QuietStep(s, op.state, log, op.events, lib);
      QuietStep(s, op.state.(failed := true), log, op.events, lib);
    case Describe(target, name) =>
      DescribeStep(s, target, name, up);
      PreparedAnyway(s);
      QuietStep(s, s, log, DescribeOp(s, target, name, up).events, lib);
      QuietStep(s, s.(failed := true), log, DescribeOp(s, target, name, up).events, lib);
    case Bind(_, _, _, _, _) =>
      BindStep(s, m, up, lib, log);
      BindKeepsFailed(s, m, up, lib);
    case Execute(name, maxRows) =>
      ExecuteStep(s, name, maxRows, up, lib, log);
      ExecuteKeepsFailed(s, name, maxRows, up, lib);
    case Close(target, name) =>
      CloseStep(s, target, name, lib, log);
      CloseKeepsFailed(s, target, name);
    case Sync => SyncStep(s, lib, log, [Sent(ReadyForQuery, 0)]);
    case Flush => QuietStep(s, s, log, [], lib);
    case Terminate =>
      PreparedAnyway(s);
      QuietStep(s, s.(closed := true), log, [], lib);
    case Unsupported =>
      PreparedAnyway(s);
      QuietStep(s, s.(failed := true), log, [], lib);
  }

  lemma PreparedAnyway(s: State)
    ensures AllPrepared(s.(failed := true)) == AllPrepared(s) && Bounded(s.(failed := true)) == Bounded(s)
    ensures AllPrepared(s.(closed := true)) == AllPrepared(s) && Bounded(s.(closed := true)) == Bounded(s)
  {
  }

  lemma BindKeepsFailed(s: State, m: Message, up: Upstream, lib: FloatLib)
    requires m.Bind?
    ensures BindOp(s, m, up, lib).state.failed == s.failed
  {
  }

  lemma ExecuteKeepsFailed(s: State, name: string, maxRows: nat, up: Upstream, lib: FloatLib)
    requires ValidPortals(s)
    ensures ExecuteOp(s, name, maxRows, up, lib).state.failed == s.failed
  {
  }

  lemma CloseKeepsFailed(s: State, target: char, name: string)
    ensures CloseOp(s, target, name).state.failed == s.failed
  {
  }

  /** Every step keeps the invariant. */
  lemma StepInv(s: State, m: Message, up: Upstream, lib: FloatLib, log: seq<Event>)
    requires Inv(s, log, lib)
    ensures Inv(Step(s, m, up, lib).state, log + Step(s, m, up, lib).events, lib)
  {
    hide Operate, Skipped, Executions, RowsOf, ValidPortals, AllPrepared, Bounded, Numbered, AllLogged, Fresh;
    if Skipped(s, m) {
      assert log + [] == log;
    } else {
      OperateInv(s, m, up, lib, log);
      var op := Operate(s, m, up, lib);
      if op.error.Some? {
        ErrorStep(op.state.(failed := true), lib, log + op.events, op.error.value);
        Assoc(log, op.events, [Sent(ErrorResponse(op.error.value), 0)]);
      }
    }
  }

  // ------------------------------------------------------------- whole sessions

  lemma {:induction false} RunKeepsInv(s: State, log: seq<Event>, inputs: seq<Input>, lib: FloatLib)
    requires Inv(s, log, lib)
    ensures ValidPortals(s)
    ensures Inv(Run(s, inputs, lib).state, log + Run(s, inputs, lib).events, lib)
    decreases |inputs|
  {
    hide Step, AllPrepared, Bounded, Numbered, AllLogged, Fresh;
    if inputs == [] {
      assert log + [] == log;
    } else {
      var first := Step(s, inputs[0].message, inputs[0].upstream, lib);
      StepInv(s, inputs[0].message, inputs[0].upstream, lib, log);
      RunKeepsInv(first.state, log + first.events, inputs[1..], lib);
      Assoc(log, first.events, Run(first.state, inputs[1..], lib).events);
    }
  }

  lemma InitialInv(lib: FloatLib)
    ensures Inv(INITIAL, [], lib)
  {
  }

  /** In every state a session can reach: statements have one type per
      placeholder, names are bounded, and for each portal the rows sent are the
      first rows of its result, encoded and in order, after at most one real
      execution, for portals in use and for those already gone. */
  lemma SessionInv(inputs: seq<Input>, lib: FloatLib)
    ensures Inv(Run(INITIAL, inputs, lib).state, Run(INITIAL, inputs, lib).events, lib)
  {
    hide Inv;
    InitialInv(lib);
    RunKeepsInv(INITIAL, [], inputs, lib);
    assert [] + Run(INITIAL, inputs, lib).events == Run(INITIAL, inputs, lib).events;
  }

  /** No bound portal is ever executed upstream twice, whatever fails. */
  lemma AtMostOneExecution(inputs: seq<Input>, lib: FloatLib, id: nat)
    requires id >= 1
    ensures Executions(Run(INITIAL, inputs, lib).events, id) <= 1
  {
    hide Executions, Run, AllPrepared, Bounded, Numbered, AllLogged;
    SessionInv(inputs, lib);
  }

  /** Every stored statement has as many types as its query has placeholders. */
  lemma StatementsPrepared(inputs: seq<Input>, lib: FloatLib, name: string)
    requires name in Run(INITIAL, inputs, lib).state.statements
    ensures Prepared(Run(INITIAL, inputs, lib).state.statements[name])
  {
    hide Run, Prepared, Bounded, Numbered, AllLogged, Fresh;
    SessionInv(inputs, lib);
  }

  /** So binding cannot fail any more: once every parameter value has been read,
      the bound text exists, and Describe always reaches the upstream. */
  lemma PreparedNeverFailsToBind(st: Stored, m: Message, lib: FloatLib)
    requires Prepared(st)
    ensures BindSql(st.query, Postgres, [], true).Ok?
    ensures m.Bind? && |m.params| == |st.oids| && ValidFormats(m.formats, |m.params|) ==>
              (BoundText(st, m, lib).Ok? <==> ReadParams(m.params, st.oids, m.formats, 0, lib).Ok?)
  {
    hide BindSql, ReadParams, ValidFormats;
    if m.Bind? && |m.params| == |st.oids| && ReadParams(m.params, st.oids, m.formats, 0, lib).Ok? {
      BindSqlArity(st.query, Postgres, ReadParams(m.params, st.oids, m.formats, 0, lib).value);
    }
  }

  /** At most 1024 named statements and 1024 named portals, 1025 with the unnamed
      one, at any time. */
  lemma NamesBounded(inputs: seq<Input>, lib: FloatLib)
    ensures var s := Run(INITIAL, inputs, lib).state;
            && |s.statements.Keys - {""}| <= MAX_NAMED && |s.statements| <= MAX_NAMED + 1
            && |s.portals.Keys - {""}| <= MAX_NAMED && |s.portals| <= MAX_NAMED + 1
  {
    hide Run, AllPrepared, Numbered, AllLogged, Fresh;
    SessionInv(inputs, lib);
  }

  /** The rows of a live portal, while the session is not in error: `pos` of
      them, the first ones of its result, nothing lost or repeated. */
  lemma PagedRowsExact(inputs: seq<Input>, lib: FloatLib, name: string)
    requires var s := Run(INITIAL, inputs, lib).state;
             && !s.failed && name in s.portals
             && s.portals[name].result.Some? && s.portals[name].result.value.resultset.Some?
    ensures var o := Run(INITIAL, inputs, lib);
            var p := o.state.portals[name];
            var rs, sent := p.result.value.resultset.value, RowsOf(o.events, p.id);
            && |sent| == p.pos <= |rs.rows|
            && (forall j :: 0 <= j < p.pos ==> EncodeRow(rs.rows[j], rs.columns, p.formats, 0, lib) == Ok(sent[j]))
            && (p.completed ==> |sent| == |rs.rows|)
  {
    hide Run, Executions, RowsOf, EncodeRow, AllPrepared, Bounded, Numbered, Fresh;
    SessionInv(inputs, lib);
    var o := Run(INITIAL, inputs, lib);
    assert Logged(o.state.portals[name], o.state.failed, o.events, lib);
    assert ValidPortal(o.state.portals[name]);
  }

  lemma CompletedRows(p: Portal, log: seq<Event>, lib: FloatLib)
    requires ValidPortal(p) && Logged(p, false, log, lib) && p.completed
    requires p.result.Some? && p.result.value.resultset.Some?
    ensures |RowsOf(log, p.id)| == |p.result.value.resultset.value.rows|
  {
    hide Executions, RowsOf, EncodeRow;
  }

  lemma CompletionLast(p: Portal, maxRows: nat, up: Upstream, lib: FloatLib)
    requires ValidPortal(p)
    ensures var op := ExecutePortal(p, maxRows, up, lib);
            && op.portal.id == p.id
            && (op.error.None? && op.portal.completed && op.portal.result.Some? ==>
              && op.events != []
              && op.events[|op.events| - 1] == Sent(CommandComplete(PgTag(op.portal.query, op.portal.result.value)), p.id))
  {
    hide SendRows, PgTag, EncodeRow;
  }

  lemma SelectTag(q: string, r: QueryResult)
    ensures r.resultset.Some? && Fields(q) != [] ==> PgTag(q, r) == "SELECT " + NatText(|r.resultset.value.rows|)
  {
  }

  /** When Execute reports completion of a row-returning query, every row has been
      sent, and the tag says how many. */
  lemma CompletionCountsRows(inputs: seq<Input>, lib: FloatLib, name: string, maxRows: nat, up: Upstream)
    requires var s := Run(INITIAL, inputs, lib).state;
             var o := Step(s, Execute(name, maxRows), up, lib);
             && !s.failed && !s.closed && name in s.portals
             && !o.state.failed && o.state.portals[name].completed
             && o.state.portals[name].result.Some? && o.state.portals[name].result.value.resultset.Some?
    ensures var before := Run(INITIAL, inputs, lib);
            var o := Step(before.state, Execute(name, maxRows), up, lib);
            var p := o.state.portals[name];
            var n := |p.result.value.resultset.value.rows|;
            && |RowsOf(before.events + o.events, p.id)| == n
            && o.events != []
            && o.events[|o.events| - 1] == Sent(CommandComplete(PgTag(p.query, p.result.value)), p.id)
            && (Fields(p.query) != [] ==> PgTag(p.query, p.result.value) == "SELECT " + NatText(n))
  {
    hide Run, RowsOf, EncodeRow, ExecutePortal, PgTag, Logged, Fresh, AllPrepared, Bounded, Numbered, ValidPortal;
    SessionInv(inputs, lib);
    var before := Run(INITIAL, inputs, lib);
    var m := Execute(name, maxRows);
    StepInv(before.state, m, up, lib, before.events);
    var o := Step(before.state, m, up, lib);
    var p := o.state.portals[name];
    CompletedRows(p, before.events + o.events, lib);
    CompletionLast(before.state.portals[name], maxRows, up, lib);
    SelectTag(p.query, p.result.value);
  }

  // ---------------------------------------------------- silence and accounting

  /** Between an error and the next Sync nothing is sent, nothing reaches the
      upstream and nothing changes. */
  lemma {:induction false} SilentUntilSync(s: State, inputs: seq<Input>, lib: FloatLib)
    requires ValidPortals(s) && s.failed
    requires forall k :: 0 <= k < |inputs| ==> !inputs[k].message.Sync? && !inputs[k].message.Terminate?
    ensures Run(s, inputs, lib) == Outcome(s, [])
    decreases |inputs|
  {
    hide Operate;
    if inputs != [] {
      assert Skipped(s, inputs[0].message);
      SilentUntilSync(s, inputs[1..], lib);
    }
  }

  /** The Sync and Query messages that are not skipped. */
  function Processed(s: State, inputs: seq<Input>, lib: FloatLib): nat
    requires ValidPortals(s)
    decreases |inputs|
  {
    if inputs == [] then 0
    else
      var m := inputs[0].message;
      StepValid(s, m, inputs[0].upstream, lib);
      (if !Skipped(s, m) && (m.Sync? || m.Query?) then 1 else 0)
      + Processed(Step(s, m, inputs[0].upstream, lib).state, inputs[1..], lib)
  }

  lemma PortalNeverReady(p: Portal, maxRows: nat, up: Upstream, lib: FloatLib)
    requires ValidPortal(p)
    ensures NeverReady(ExecutePortal(p, maxRows, up, lib).events)
  {
    hide SendRows, PgTag, EncodeRow;
    var q := if p.result.Some? then p else if up.run.Ok? then p.(result := Some(up.run.value)) else p;
    if q.result.Some? && q.result.value.resultset.Some? && !q.completed {
      var rs := q.result.value.resultset.value;
      SendRowsMatch(rs, q.pos, PageEnd(|rs.rows|, q.pos, maxRows), q.formats, q.id, lib);
    }
  }

  /** ReadyForQuery ends each Sync and each Query, and nothing else. */
  lemma StepReady(s: State, m: Message, up: Upstream, lib: FloatLib)
    requires ValidPortals(s)
    ensures ReadyCount(Step(s, m, up, lib).events) == if !Skipped(s, m) && (m.Sync? || m.Query?) then 1 else 0
  {
    hide ReadyCount, QueryEvents, ExecutePortal, BindSql, BoundText, ParameterOids.Infer, ValidFormats, PgDescription,
      ValidPortal, RowsOf;
    var events := Step(s, m, up, lib).events;
    NeverReadyCount([]);
    if Skipped(s, m) {
    } else if m.Query? {
      QueryStep(s, m.sql, up, lib);
      var q := QueryEvents(m.sql, up, lib);
      var failure := if q.error.Some? then [Sent(ErrorResponse(q.error.value), 0)] else [];
      NeverReadyCount(q.events + failure);
      LogAppend(q.events + failure, [Sent(ReadyForQuery, 0)], 0);
      OneReady();
    } else if m.Sync? {
      OneReady();
    } else {
      if m.Execute? && m.portal in s.portals { PortalNeverReady(s.portals[m.portal], m.maxRows, up, lib); }
      NeverReadyCount(events);
    }
  }

  lemma OneReady()
    ensures ReadyCount([Sent(ReadyForQuery, 0)]) == 1
  {
    assert [Sent(ReadyForQuery, 0)][1..] == [];
  }

  lemma {:induction false} ReadyAccounting(s: State, inputs: seq<Input>, lib: FloatLib)
    requires ValidPortals(s)
    ensures ReadyCount(Run(s, inputs, lib).events) == Processed(s, inputs, lib)
    decreases |inputs|
  {
    hide Step, ReadyCount, Skipped, ValidPortals;
    if inputs == [] {
      NeverReadyCount([]);
    } else {
      var m, up := inputs[0].message, inputs[0].upstream;
      StepReady(s, m, up, lib);
      StepValid(s, m, up, lib);
      var first := Step(s, m, up, lib);
      ReadyAccounting(first.state, inputs[1..], lib);
      LogAppend(first.events, Run(first.state, inputs[1..], lib).events, 0);
    }
  }

  lemma StepKeepsStatement(s: State, m: Message, up: Upstream, lib: FloatLib, name: string)
    requires ValidPortals(s) && name != "" && name in s.statements
    requires !(m.Close? && m.target == 'S' && m.name == name)
    ensures var s' := Step(s, m, up, lib).state; name in s'.statements && s'.statements[name] == s.statements[name]
  {
    hide QueryEvents, ExecutePortal, BindSql, BoundText, ParameterOids.Infer, ValidFormats, PgDescription, ValidPortal;
  }

  /** A named statement never changes between its Parse and its Close. */
  lemma {:induction false} StatementImmutable(s: State, inputs: seq<Input>, lib: FloatLib, name: string)
    requires ValidPortals(s) && name != "" && name in s.statements
    requires forall k :: 0 <= k < |inputs| ==>
               var m := inputs[k].message; !(m.Close? && m.target == 'S' && m.name == name)
    ensures var s' := Run(s, inputs, lib).state; name in s'.statements && s'.statements[name] == s.statements[name]
    decreases |inputs|
  {
    hide Step, ValidPortals;
    if inputs != [] {
      StepValid(s, inputs[0].message, inputs[0].upstream, lib);
      StepKeepsStatement(s, inputs[0].message, inputs[0].upstream, lib, name);
      StatementImmutable(Step(s, inputs[0].message, inputs[0].upstream, lib).state, inputs[1..], lib, name);
    }
  }

  // ------------------------------------------------------------ counting pages

  /** Every row of the result has an encoding. */
  predicate Encodable(r: ResultSet, formats: seq<int>, lib: FloatLib)
    requires Rectangular(r)
  {
    forall k :: 0 <= k < |r.rows| ==> EncodeRow(r.rows[k], r.columns, formats, 0, lib).Ok?
  }

  lemma {:induction false} EncodableRows(r: ResultSet, start: nat, end: nat, formats: seq<int>, portal: nat, lib: FloatLib)
    requires Rectangular(r) && Encodable(r, formats, lib) && start <= end <= |r.rows|
    ensures SendRows(r, start, end, formats, portal, lib).error.None?
    decreases end - start
  {
    hide EncodeRow;
    if start < end { EncodableRows(r, start + 1, end, formats, portal, lib); }
  }

  /** The portal after `m` Executes with the same row limit. */
  function Pages(p: Portal, maxRows: nat, m: nat, up: Upstream, lib: FloatLib): (q: Portal)
    requires ValidPortal(p)
    ensures ValidPortal(q)
    decreases m
  {
    if m == 0 then p
    else
      var q := Pages(p, maxRows, m - 1, up, lib);
      ExecuteValid(q, maxRows, up, lib);
      ExecutePortal(q, maxRows, up, lib).portal
  }

  /** One Execute moves the cursor by a page, and completes at the end. */
  lemma OnePage(q: Portal, k: nat, up: Upstream, rs: ResultSet, lib: FloatLib)
    requires ValidPortal(q)
    requires (if q.result.None? then up.run.Ok? && up.run.value.resultset == Some(rs)
              else q.result.value.resultset == Some(rs))
    requires Encodable(rs, q.formats, lib)
    ensures var t, n := ExecutePortal(q, k, up, lib).portal, |rs.rows|;
            && q.pos <= n && t.formats == q.formats && t.id == q.id && t.completed == (t.pos == n)
            && t.result == (if q.result.None? then Some(up.run.value) else q.result)
            && t.pos == (if q.completed then n else PageEnd(n, q.pos, k))
  {
    hide SendRows, EncodeRow, PgTag, Encodable;
    EncodableRows(rs, q.pos, PageEnd(|rs.rows|, q.pos, k), q.formats, q.id, lib);
  }

  lemma PageArithmetic(m: nat, k: nat, n: nat)
    requires m > 0 && k > 0
    ensures var before := if (m - 1) * k < n then (m - 1) * k else n;
            PageEnd(n, before, k) == if m * k < n then m * k else n
    ensures (m - 1) * k >= n ==> m * k >= n
  {
    assert m * k == (m - 1) * k + k;
  }

  lemma {:induction false} PagesReach(p: Portal, k: nat, m: nat, up: Upstream, rs: ResultSet, lib: FloatLib)
    requires ValidPortal(p) && p.result.None? && k > 0
    requires up.run.Ok? && up.run.value.resultset == Some(rs) && Encodable(rs, p.formats, lib)
    ensures var q, n := Pages(p, k, m, up, lib), |rs.rows|;
            && q.formats == p.formats && q.id == p.id
            && (m > 0 ==> q.result == Some(up.run.value)) && (m == 0 ==> q == p)
            && q.pos == (if m * k < n then m * k else n)
            && q.completed == (m > 0 && m * k >= n)
    decreases m
  {
    hide ExecutePortal, ValidPortal, Encodable, PageEnd;
    if m == 0 {
      FreshPortal(p);
    } else {
      PagesReach(p, k, m - 1, up, rs, lib);
      OnePage(Pages(p, k, m - 1, up, lib), k, up, rs, lib);
      PageArithmetic(m, k, |rs.rows|);
    }
  }

  lemma FreshPortal(p: Portal)
    requires ValidPortal(p) && p.result.None?
    ensures p.pos == 0 && !p.completed
  {
  }

  /** The number of Executes an n-row result takes at k rows each. */
  function PagesNeeded(n: nat, k: nat): nat
    requires k > 0
  {
    if n == 0 then 1 else (n + k - 1) / k
  }

  lemma PagesNeededExact(n: nat, k: nat, m: nat)
    requires k > 0 && m > 0
    ensures m * k >= n <==> m >= PagesNeeded(n, k)
  {
    if n > 0 {
      var q := (n + k - 1) / k;
      assert q * k <= n + k - 1 < q * k + k;
      if m >= q { Times(m, q, k); } else { Times(q - 1, m, k); }
    }
  }

  lemma Times(a: nat, b: nat, k: nat)
    requires a >= b
    ensures a * k >= b * k
  {
  }

  /** Paging takes exactly max(1, ceil(n/k)) Executes: all but the last one end in
      PortalSuspended, and the last one, even at an exact multiple, completes. */
  lemma PagingIsExact(p: Portal, k: nat, m: nat, up: Upstream, rs: ResultSet, lib: FloatLib)
    requires ValidPortal(p) && p.result.None? && k > 0 && m > 0
    requires up.run.Ok? && up.run.value.resultset == Some(rs) && Encodable(rs, p.formats, lib)
    ensures Pages(p, k, m, up, lib).completed <==> m >= PagesNeeded(|rs.rows|, k)
    ensures m <= PagesNeeded(|rs.rows|, k) ==>
              var op := ExecutePortal(Pages(p, k, m - 1, up, lib), k, up, lib);
              && op.error.None? && op.events != []
              && op.events[|op.events| - 1] ==
                 Sent(if m < PagesNeeded(|rs.rows|, k) then PortalSuspended
                      else CommandComplete(PgTag(p.query, up.run.value)), p.id)
  {
    hide SendRows, EncodeRow, PgTag, Encodable, Pages, PagesNeeded;
    PagesReach(p, k, m, up, rs, lib);
    PagesReach(p, k, m - 1, up, rs, lib);
    PagesNeededExact(|rs.rows|, k, m);
    var q := Pages(p, k, m - 1, up, lib);
    EncodableRows(rs, q.pos, PageEnd(|rs.rows|, q.pos, k), p.formats, p.id, lib);
    if m > 1 { PagesNeededExact(|rs.rows|, k, m - 1); }
    assert m * k == (m - 1) * k + k;
    PagesKeepQuery(p, k, m - 1, up, lib);
  }

  lemma {:induction false} PagesKeepQuery(p: Portal, k: nat, m: nat, up: Upstream, lib: FloatLib)
    requires ValidPortal(p)
    ensures Pages(p, k, m, up, lib).query == p.query
    decreases m
  {
    hide SendRows, EncodeRow, PgTag;
    if m > 0 { PagesKeepQuery(p, k, m - 1, up, lib); }
  }

  // -------------------------------------------------- pages in the midst of a run

  /** The message leaves a portal alone, or executes it with the row limit k. */
  predicate Leaves(m: Message, name: string, k: nat) {
    && !m.Sync? && !m.Terminate?
    && !(m.Bind? && m.portal == name)
    && !(m.Close? && m.target == 'P' && m.name == name)
    && (m.Execute? && m.portal == name ==> m.maxRows == k)
  }

  predicate Executes(m: Message, name: string) {
    m.Execute? && m.portal == name
  }

  function ExecuteCount(inputs: seq<Input>, name: string): nat {
    if inputs == [] then 0
    else (if Executes(inputs[0].message, name) then 1 else 0) + ExecuteCount(inputs[1..], name)
  }

  lemma StepKeepsPortal(s: State, m: Message, up: Upstream, lib: FloatLib, name: string, k: nat)
    requires ValidPortals(s) && name in s.portals && Leaves(m, name, k) && !Executes(m, name)
    ensures var s' := Step(s, m, up, lib).state;
            name in s'.portals && s'.portals[name] == s.portals[name] && s'.closed == s.closed
  {
    hide QueryEvents, ExecutePortal, BindSql, BoundText, ParameterOids.Infer, ValidFormats, PgDescription, ValidPortal;
  }

  lemma StepExecutes(s: State, m: Message, up: Upstream, lib: FloatLib, name: string)
    requires ValidPortals(s) && name in s.portals && Executes(m, name) && !s.failed && !s.closed
    ensures var s' := Step(s, m, up, lib).state;
            && name in s'.portals && s'.portals[name] == ExecutePortal(s.portals[name], m.maxRows, up, lib).portal
            && s'.closed == s.closed
  {
    hide ExecutePortal, ValidPortal;
  }

  /** Of the upstream's answers, Execute looks at the run alone. */
  lemma SameRunSamePortal(p: Portal, k: nat, a: Upstream, b: Upstream, lib: FloatLib)
    requires ValidPortal(p) && a.run == b.run
    ensures ExecutePortal(p, k, a, lib) == ExecutePortal(p, k, b, lib)
  {
    hide NextPage;
  }

  predicate Undisturbed(inputs: seq<Input>, name: string, k: nat, up: Upstream) {
    forall i :: 0 <= i < |inputs| ==>
      Leaves(inputs[i].message, name, k) && (Executes(inputs[i].message, name) ==> inputs[i].upstream.run == up.run)
  }

  /** Whatever else is sent in between, the portal is where its own Executes have
      brought it, as long as the session is not in error. */
  lemma {:induction false} RunPages(s: State, inputs: seq<Input>, lib: FloatLib, name: string, p: Portal, k: nat, m: nat,
                                    up: Upstream)
    requires ValidPortals(s) && !s.closed && name in s.portals && ValidPortal(p)
    requires s.portals[name] == Pages(p, k, m, up, lib)
    requires Undisturbed(inputs, name, k, up) && !Run(s, inputs, lib).state.failed
    ensures var t := Run(s, inputs, lib).state;
            name in t.portals && t.portals[name] == Pages(p, k, m + ExecuteCount(inputs, name), up, lib)
    decreases |inputs|
  {
    hide Step, ValidPortals, ExecutePortal, ValidPortal, Leaves, Executes;
    if s.failed {
      QuietFailure(s, inputs, lib, name, k, up);
    } else if inputs != [] {
      var i := inputs[0];
      StepValid(s, i.message, i.upstream, lib);
      var t := Step(s, i.message, i.upstream, lib).state;
      assert Leaves(i.message, name, k);
      Rest(inputs, name, k, up);
      if Executes(i.message, name) {
        LeavesLimit(i.message, name, k);
        StepExecutes(s, i.message, i.upstream, lib, name);
        SameRunSamePortal(Pages(p, k, m, up, lib), k, i.upstream, up, lib);
        RunPages(t, inputs[1..], lib, name, p, k, m + 1, up);
      } else {
        StepKeepsPortal(s, i.message, i.upstream, lib, name, k);
        RunPages(t, inputs[1..], lib, name, p, k, m, up);
      }
    }
  }

  lemma LeavesLimit(m: Message, name: string, k: nat)
    requires Leaves(m, name, k) && Executes(m, name)
    ensures m.maxRows == k
  {
  }

  lemma Rest(inputs: seq<Input>, name: string, k: nat, up: Upstream)
    requires inputs != [] && Undisturbed(inputs, name, k, up)
    ensures Undisturbed(inputs[1..], name, k, up)
  {
    hide Leaves, Executes;
  }

  /** An error would last: without a Sync the session stays in it. */
  lemma QuietFailure(s: State, inputs: seq<Input>, lib: FloatLib, name: string, k: nat, up: Upstream)
    requires ValidPortals(s) && s.failed && Undisturbed(inputs, name, k, up)
    ensures Run(s, inputs, lib).state.failed
  {
    hide Run, ValidPortals;
    SilentUntilSync(s, inputs, lib);
  }

  lemma {:induction false} RunAppend(s: State, a: seq<Input>, b: seq<Input>, lib: FloatLib)
    requires ValidPortals(s)
    ensures var o := Run(s, a, lib);
            Run(s, a + b, lib) == Outcome(Run(o.state, b, lib).state, o.events + Run(o.state, b, lib).events)
    decreases |a|
  {
    hide Step, ValidPortals;
    if a == [] {
      assert a + b == b;
      assert [] + Run(s, b, lib).events == Run(s, b, lib).events;
    } else {
      AppendTail(a, b);
      StepValid(s, a[0].message, a[0].upstream, lib);
      var first := Step(s, a[0].message, a[0].upstream, lib);
      RunAppend(first.state, a[1..], b, lib);
      var o := Run(first.state, a[1..], lib);
      Assoc(first.events, o.events, Run(o.state, b, lib).events);
    }
  }

  /** Paging over whole runs: once a portal has been bound, and however its
      Executes are mixed with other messages, m of them with the row limit k have
      sent min(m * k, n) of its n rows, and the portal is complete exactly from the
      max(1, ceil(n / k))-th on. */
  lemma PagingOverRuns(before: seq<Input>, during: seq<Input>, lib: FloatLib, name: string, k: nat, up: Upstream,
                       rs: ResultSet)
    requires k > 0 && up.run.Ok? && up.run.value.resultset == Some(rs)
    requires var s := Run(INITIAL, before, lib).state;
             && !s.closed && name in s.portals && s.portals[name].result.None?
             && Encodable(rs, s.portals[name].formats, lib)
             && !Run(s, during, lib).state.failed
    requires Undisturbed(during, name, k, up) && ExecuteCount(during, name) > 0
    ensures var s, o := Run(INITIAL, before, lib).state, Run(INITIAL, before + during, lib);
            var m, n := ExecuteCount(during, name), |rs.rows|;
            && name in o.state.portals && o.state.portals[name].id == s.portals[name].id
            && (o.state.portals[name].completed <==> m >= PagesNeeded(n, k))
            && |RowsOf(o.events, s.portals[name].id)| == if m * k < n then m * k else n
  {
    hide Run, RowsOf, Encodable, Pages, PagesNeeded, Undisturbed, ValidPortal;
    var s := Run(INITIAL, before, lib).state;
    var m := ExecuteCount(during, name);
    var p := s.portals[name];
    assert ValidPortal(p);
    NoPages(p, k, up, lib);
    RunPages(s, during, lib, name, p, k, 0, up);
    RunAppend(INITIAL, before, during, lib);
    PagesReach(p, k, m, up, rs, lib);
    PagesNeededExact(|rs.rows|, k, m);
    PagedRowsExact(before + during, lib, name);
  }

  lemma NoPages(p: Portal, k: nat, up: Upstream, lib: FloatLib)
    requires ValidPortal(p)
    ensures Pages(p, k, 0, up, lib) == p
  {
  }
}
