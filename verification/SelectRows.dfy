/** Result sets: how they are built and checked, which columns a SELECT has, and
    how the columns Milvus returns become rows. */
module SelectRows {
  import opened Prelude
  import opened SqlAst
  import opened Results
  import Wire
  import Plans = SelectPlan

  // ------------------------------------------------------------ buildResultset

  /** `formatField`: the wire type a value suggests for its column. */
  function FormatKind(v: Value): Result<ColumnType> {
    match v
    case Nil => Ok(NullType)
    case VBool(_) => Ok(Tiny)
    case VInt(_) => Ok(LongLong)
    case VFloat(_) => Ok(Double)
    case VText(_) => Ok(VarString)
    case VBytes(_) => Ok(VarString)
    case VList(_) => Ok(VarString)
    case VOther => Err("unsupported type for resultset")
  }

  function Untyped(names: seq<string>): (cs: seq<ResultColumn>)
    ensures |cs| == |names|
  {
    seq(|names|, j requires 0 <= j < |names| => ResultColumn(names[j], VarString))
  }

  /** The columns a row of values suggests, from column j on. */
  function ColumnsFrom(names: seq<string>, row: seq<Value>, j: nat): (r: Result<seq<ResultColumn>>)
    requires |row| == |names| && j <= |row|
    ensures r.Ok? ==> |r.value| == |names| - j
    decreases |row| - j
  {
    if j == |row| then Ok([])
    else match FormatKind(row[j])
      case Err(m) => Err(m)
      case Ok(kind) =>
        match ColumnsFrom(names, row, j + 1)
        case Err(m) => Err(m)
        case Ok(cs) => Ok([ResultColumn(names[j], kind)] + cs)
  }

  predicate AllWidths(rows: seq<seq<Value>>, width: nat) {
    forall i :: 0 <= i < |rows| ==> |rows[i]| == width
  }

  function BuildResultset(fields: seq<ResultColumn>, names: seq<string>, rows: seq<seq<Value>>): Result<ResultSet> {
    if fields != [] && |fields| != |names| then Err("invalid argument")
    else if rows != [] && |rows[0]| != |names| then Err("wrong number of columns")
    else
      var columns :=
        if fields != [] then Ok(fields)
        else if rows != [] then ColumnsFrom(names, rows[0], 0)
        else Ok(Untyped(names));
      if columns.Err? then Err(columns.reason)
      else if !AllWidths(rows, |names|) then Err("wrong number of columns")
      else Ok(ResultSet(columns.value, rows))
  }

  method FormatFields(names: seq<string>, row: seq<Value>) returns (r: Result<seq<ResultColumn>>)
    requires |row| == |names|
    ensures r == ColumnsFrom(names, row, 0)
  {
    var columns: seq<ResultColumn> := [];
    ghost var whole := ColumnsFrom(names, row, 0);
    assert whole.Ok? ==> [] + whole.value == whole.value;
    for j := 0 to |row|
      invariant var rest := ColumnsFrom(names, row, j);
                (rest.Err? ==> whole == Err(rest.reason)) && (rest.Ok? ==> whole == Ok(columns + rest.value))
    {
      var kind := FormatKind(row[j]);
      if kind.Err? {
        return Err(kind.reason);
      }
      ghost var rest := ColumnsFrom(names, row, j + 1);
      if rest.Ok? { Assoc(columns, [ResultColumn(names[j], kind.value)], rest.value); }
      columns := columns + [ResultColumn(names[j], kind.value)];
    }
    assert columns + [] == columns;
    return Ok(columns);
  }

  method BuildLoop(fields: seq<ResultColumn>, names: seq<string>, rows: seq<seq<Value>>) returns (r: Result<ResultSet>)
    ensures r == BuildResultset(fields, names, rows)
  {
    if |fields| != 0 && |fields| != |names| {
      return Err("invalid argument");
    }
    var columns := if |fields| > 0 then fields else Untyped(names);
    for i := 0 to |rows|
      invariant forall k :: 0 <= k < i ==> |rows[k]| == |names|
      invariant |fields| > 0 ==> columns == fields
      invariant |fields| == 0 && i > 0 ==> ColumnsFrom(names, rows[0], 0) == Ok(columns)
      invariant i == 0 && |fields| == 0 ==> columns == Untyped(names)
    {
      if |rows[i]| != |names| {
        return Err("wrong number of columns");
      }
      if i == 0 && |fields| == 0 {
        var kinds := FormatFields(names, rows[0]);
        if kinds.Err? {
          return Err(kinds.reason);
        }
        columns := kinds.value;
      }
    }
    return Ok(ResultSet(columns, rows));
  }

  lemma {:induction false} ColumnsNamed(names: seq<string>, row: seq<Value>, j: nat)
    requires |row| == |names| && j <= |row| && ColumnsFrom(names, row, j).Ok?
    ensures forall k :: 0 <= k < |names| - j ==>
              ColumnsFrom(names, row, j).value[k].name == names[j + k]
              && FormatKind(row[j + k]) == Ok(ColumnsFrom(names, row, j).value[k].kind)
    decreases |row| - j
  {
    hide FormatKind;
    if j < |row| { ColumnsNamed(names, row, j + 1); }
  }

  /** A result set that is built is rectangular, keeps the rows, has the names
      asked for and, without given types, those of its first row. */
  lemma BuiltShape(fields: seq<ResultColumn>, names: seq<string>, rows: seq<seq<Value>>)
    requires BuildResultset(fields, names, rows).Ok?
    ensures var r := BuildResultset(fields, names, rows).value;
            && Rectangular(r) && r.rows == rows && |r.columns| == |names|
            && (fields != [] ==> r.columns == fields)
            && (fields == [] ==> forall k :: 0 <= k < |names| ==>
                  && r.columns[k].name == names[k]
                  && (rows != [] ==> FormatKind(rows[0][k]) == Ok(r.columns[k].kind))
                  && (rows == [] ==> r.columns[k].kind == VarString))
  {
    hide FormatKind;
    if fields == [] && rows != [] { ColumnsNamed(names, rows[0], 0); }
  }

  /** A result set is built exactly if there is a type per name, a value per name in
      every row, and a type for every value of the first row if none are given. */
  lemma BuildAccepted(fields: seq<ResultColumn>, names: seq<string>, rows: seq<seq<Value>>)
    ensures (BuildResultset(fields, names, rows).Ok?
             <==> && (fields == [] || |fields| == |names|)
                  && (forall i :: 0 <= i < |rows| ==> |rows[i]| == |names|)
                  && (fields == [] && rows != [] ==> forall k :: 0 <= k < |rows[0]| ==> !rows[0][k].VOther?))
  {
    if rows != [] && |rows[0]| == |names| { KindsAccepted(names, rows[0], 0); }
  }

  lemma {:induction false} KindsAccepted(names: seq<string>, row: seq<Value>, j: nat)
    requires |row| == |names| && j <= |row|
    ensures ColumnsFrom(names, row, j).Ok? <==> forall k :: j <= k < |row| ==> !row[k].VOther?
    decreases |row| - j
  {
    if j < |row| { KindsAccepted(names, row, j + 1); }
  }

  /** The type of a field is the one its values would suggest. */
  lemma TypedAsFormatted(v: Value, kind: FieldType)
    requires Wire.CellOf(v, kind)
    ensures FormatKind(v) == Ok(WireType(kind))
  {
  }

  // --------------------------------------------------------------- projection

  datatype Output = Output(name: string, kind: FieldType)

  predicate IsStar(e: SelectExpr) {
    e == Star("")
  }

  predicate IsItem(e: SelectExpr) {
    e.Projection? && (IsCountStar(e.expr) || e.expr.Column?)
  }

  function ProjectItem(e: SelectExpr, fields: seq<SchemaField>, search: bool): Result<Output>
    requires IsItem(e)
  {
    var name := if IsCountStar(e.expr) then "count(*)" else e.expr.name;
    if name == "count(*)" then
      if search then Err("count with vector search is unsupported") else Ok(Output(name, FInt64))
    else if name == "_distance" && search then Ok(Output(name, FFloat))
    else match FieldNamed(fields, name)
      case None => Err("unknown field")
      case Some(f) => Ok(Output(name, f.kind))
  }

  function ProjectFrom(exprs: seq<SelectExpr>, fields: seq<SchemaField>, search: bool, k: nat): (r: Result<seq<Output>>)
    requires (forall e :: e in exprs ==> IsItem(e)) && k <= |exprs|
    ensures r.Ok? ==> |r.value| == |exprs| - k
    decreases |exprs| - k
  {
    if k == |exprs| then Ok([])
    else match ProjectItem(exprs[k], fields, search)
      case Err(m) => Err(m)
      case Ok(o) =>
        match ProjectFrom(exprs, fields, search, k + 1) case Err(m) => Err(m) case Ok(os) => Ok([o] + os)
  }

  function FieldOutputs(fields: seq<SchemaField>): (os: seq<Output>)
    ensures |os| == |fields|
  {
    seq(|fields|, k requires 0 <= k < |fields| => Output(fields[k].name, fields[k].kind))
  }

  predicate Projectable(exprs: seq<SelectExpr>) {
    (|exprs| == 1 && IsStar(exprs[0])) || forall e :: e in exprs ==> IsItem(e)
  }

  function Project(exprs: seq<SelectExpr>, fields: seq<SchemaField>, search: bool): Result<seq<Output>>
    requires Projectable(exprs)
  {
    if |exprs| == 1 && IsStar(exprs[0]) then Ok(FieldOutputs(fields)) else ProjectFrom(exprs, fields, search, 0)
  }

  /** The projections of an accepted SELECT are ones the code can read: its type
      assertion on them never fails. */
  lemma {:induction false} AcceptedItems(exprs: seq<SelectExpr>, alone: bool)
    requires Plans.FirstError(exprs, alone).None?
    ensures forall e :: e in exprs ==> IsItem(e) || (alone && IsStar(e))
  {
    hide IsCountStar;
    if exprs != [] {
      AcceptedItems(exprs[1..], alone);
      assert forall e :: e in exprs ==> e == exprs[0] || e in exprs[1..];
    }
  }

  lemma AcceptedProjectable(s: Select, printable: char -> bool)
    requires Plans.PlanSelect(s, printable).Ok?
    ensures Projectable(s.exprs)
  {
    hide Plans.FirstError, Plans.PlanWhere, Plans.PlanLimit, IsCountStar, Plans.WindowTooLarge;
    AcceptedItems(s.exprs, |s.exprs| == 1);
    if |s.exprs| != 1 { assert forall e :: e in s.exprs ==> IsItem(e); }
    else { assert s.exprs[0] in s.exprs; assert s.exprs == [s.exprs[0]]; }
  }

  method ProjectLoop(exprs: seq<SelectExpr>, fields: seq<SchemaField>, search: bool) returns (r: Result<seq<Output>>)
    requires Projectable(exprs)
    ensures r == Project(exprs, fields, search)
  {
    hide FieldNamed, IsCountStar;
    var outs: seq<Output> := [];
    if |exprs| == 1 && IsStar(exprs[0]) {
      for k := 0 to |fields|
        invariant outs == FieldOutputs(fields[..k])
      {
        assert fields[..k + 1] == fields[..k] + [fields[k]];
        outs := outs + [Output(fields[k].name, fields[k].kind)];
      }
      assert fields[..|fields|] == fields;
      return Ok(outs);
    }
    ghost var whole := ProjectFrom(exprs, fields, search, 0);
    assert whole.Ok? ==> [] + whole.value == whole.value;
    for k := 0 to |exprs|
      invariant var rest := ProjectFrom(exprs, fields, search, k);
                (rest.Err? ==> whole == Err(rest.reason)) && (rest.Ok? ==> whole == Ok(outs + rest.value))
    {
      var o := ProjectItem(exprs[k], fields, search);
      if o.Err? {
        return Err(o.reason);
      }
      ghost var rest := ProjectFrom(exprs, fields, search, k + 1);
      if rest.Ok? { Assoc(outs, [o.value], rest.value); }
      outs := outs + [o.value];
    }
    assert outs + [] == outs;
    return Ok(outs);
  }

  function NamesOf(outs: seq<Output>): (ns: seq<string>)
    ensures |ns| == |outs|
  {
    seq(|outs|, k requires 0 <= k < |outs| => outs[k].name)
  }

  function Headers(outs: seq<Output>): (cs: seq<ResultColumn>)
    ensures |cs| == |outs|
  {
    seq(|outs|, k requires 0 <= k < |outs| => ResultColumn(outs[k].name, WireType(outs[k].kind)))
  }

  /** The fields asked of Milvus: each once, and not the search score. */
  function OutputFields(names: seq<string>, search: bool): seq<string> {
    if names == [] then []
    else
      var n := names[|names| - 1];
      var before := OutputFields(names[..|names| - 1], search);
      if (n != "_distance" || !search) && n !in before then before + [n] else before
  }

  method OutputLoop(names: seq<string>, search: bool) returns (outputs: seq<string>)
    ensures outputs == OutputFields(names, search)
  {
    outputs := [];
    var seen: set<string> := {};
    for k := 0 to |names|
      invariant outputs == OutputFields(names[..k], search)
      invariant seen == set n | n in outputs
    {
      assert names[..k + 1][..k] == names[..k];
      var n := names[k];
      if (n != "_distance" || !search) && n !in seen {
        outputs := outputs + [n];
        seen := seen + {n};
      }
    }
    assert names[..|names|] == names;
  }

  lemma {:induction false} OutputFieldsExact(names: seq<string>, search: bool)
    ensures forall n :: n in OutputFields(names, search) <==> n in names && !(n == "_distance" && search)
    ensures forall i, j :: 0 <= i < j < |OutputFields(names, search)| ==>
              OutputFields(names, search)[i] != OutputFields(names, search)[j]
  {
    if names != [] {
      OutputFieldsExact(names[..|names| - 1], search);
      assert names == names[..|names| - 1] + [names[|names| - 1]];
    }
  }

  predicate HasField(fields: seq<SchemaField>, name: string) {
    exists k :: 0 <= k < |fields| && fields[k].name == name
  }

  /** A projection there is a column for: a count if nothing is searched for, the
      score if something is, or a field. */
  predicate KnownItem(e: SelectExpr, fields: seq<SchemaField>, search: bool)
    requires IsItem(e)
  {
    if IsCountStar(e.expr) || e.expr.name == "count(*)" then !search
    else (search && e.expr.name == "_distance") || HasField(fields, e.expr.name)
  }

  /** The column of a projection: its name, with the type of what it is for. */
  predicate IsOutput(o: Output, e: SelectExpr, fields: seq<SchemaField>, search: bool)
    requires IsItem(e)
  {
    if IsCountStar(e.expr) || e.expr.name == "count(*)" then o == Output("count(*)", FInt64)
    else if search && e.expr.name == "_distance" then o == Output("_distance", FFloat)
    else
      o.name == e.expr.name && FieldNamed(fields, o.name).Some? && o.kind == FieldNamed(fields, o.name).value.kind
  }

  lemma ItemProjects(e: SelectExpr, fields: seq<SchemaField>, search: bool)
    requires IsItem(e)
    ensures ProjectItem(e, fields, search).Ok? <==> KnownItem(e, fields, search)
    ensures ProjectItem(e, fields, search).Ok? ==> IsOutput(ProjectItem(e, fields, search).value, e, fields, search)
  {
    hide EqualFold;
    if !IsCountStar(e.expr) && FieldNamed(fields, e.expr.name).Some? {
      var k :| 0 <= k < |fields| && fields[k] == FieldNamed(fields, e.expr.name).value;
      assert HasField(fields, e.expr.name);
    }
  }

  lemma {:induction false} ItemsProject(exprs: seq<SelectExpr>, fields: seq<SchemaField>, search: bool, k: nat)
    requires (forall e :: e in exprs ==> IsItem(e)) && k <= |exprs|
    ensures (ProjectFrom(exprs, fields, search, k).Ok?
             <==> forall j :: k <= j < |exprs| ==> KnownItem(exprs[j], fields, search))
    ensures ProjectFrom(exprs, fields, search, k).Ok? ==>
              forall j :: k <= j < |exprs| ==>
                IsOutput(ProjectFrom(exprs, fields, search, k).value[j - k], exprs[j], fields, search)
    decreases |exprs| - k
  {
    hide IsItem, ProjectItem, KnownItem, IsOutput;
    if k < |exprs| {
      assert exprs[k] in exprs;
      ItemProjects(exprs[k], fields, search);
      ItemsProject(exprs, fields, search, k + 1);
    }
  }

  /** What the columns of a SELECT are: those of all fields for `*`, else one for
      every projection, in order. */
  predicate Projects(outs: seq<Output>, exprs: seq<SelectExpr>, fields: seq<SchemaField>, search: bool)
    requires Projectable(exprs)
  {
    if |exprs| == 1 && IsStar(exprs[0]) then
      |outs| == |fields| && forall k :: 0 <= k < |fields| ==> outs[k] == Output(fields[k].name, fields[k].kind)
    else |outs| == |exprs| && forall k :: 0 <= k < |exprs| ==> IsItem(exprs[k]) && IsOutput(outs[k], exprs[k], fields, search)
  }

  predicate KnownProjection(exprs: seq<SelectExpr>, fields: seq<SchemaField>, search: bool)
    requires Projectable(exprs)
  {
    (|exprs| == 1 && IsStar(exprs[0]))
    || forall k :: 0 <= k < |exprs| ==> IsItem(exprs[k]) && KnownItem(exprs[k], fields, search)
  }

  /** A projection has columns exactly if everything it names is known. */
  lemma ProjectsExactly(exprs: seq<SelectExpr>, fields: seq<SchemaField>, search: bool)
    requires Projectable(exprs)
    ensures Project(exprs, fields, search).Ok? <==> KnownProjection(exprs, fields, search)
    ensures Project(exprs, fields, search).Ok? ==> Projects(Project(exprs, fields, search).value, exprs, fields, search)
  {
    hide ProjectFrom, IsItem, KnownItem, IsOutput;
    if !(|exprs| == 1 && IsStar(exprs[0])) {
      ItemsProject(exprs, fields, search, 0);
      forall k | 0 <= k < |exprs| ensures IsItem(exprs[k]) { assert exprs[k] in exprs; }
    }
  }

  // ----------------------------------------------------------------- assembly

  /** A column of Milvus data. */
  datatype Col = Col(name: string, values: seq<Value>)

  /** Where cells come from: query columns, or search columns with IDs and scores. */
  datatype Source =
    | FromQuery(cols: seq<Col>)
    | FromSearch(cols: seq<Col>, ids: Option<Col>, scores: seq<Value>, pk: string)

  function GetColumn(cols: seq<Col>, name: string): (r: Option<Col>)
    ensures r.Some? ==> r.value in cols && r.value.name == name
    ensures r.None? ==> forall c :: c in cols ==> c.name != name
  {
    if cols == [] then None else if cols[0].name == name then Some(cols[0]) else GetColumn(cols[1..], name)
  }

  function Get(c: Col, i: nat): Result<Value> {
    if i < |c.values| then Ok(c.values[i]) else Err("index out of range")
  }

  /** The search IDs stand in for the primary key if no column carries it. */
  function SearchColumns(cols: seq<Col>, ids: Option<Col>, pk: string): seq<Col> {
    if ids.Some? && GetColumn(cols, pk).None? then cols + [ids.value] else cols
  }

  function ColumnFor(src: Source, name: string): Option<Col> {
    match src
    case FromQuery(cols) => GetColumn(cols, name)
    case FromSearch(cols, ids, _, pk) =>
      var found := GetColumn(SearchColumns(cols, ids, pk), name);
      if found.None? && name == pk then ids else found
  }

  function CellAt(src: Source, name: string, i: nat): Result<Value> {
    if src.FromSearch? && name == "_distance" then
      if i >= |src.scores| then Err("incomplete search scores") else Ok(src.scores[i])
    else
      var col := ColumnFor(src, name);
      if col.None? then Err("missing result field") else Get(col.value, i)
  }

  function RowFrom(src: Source, names: seq<string>, i: nat, j: nat): (r: Result<seq<Value>>)
    requires j <= |names|
    ensures r.Ok? ==> |r.value| == |names| - j
    decreases |names| - j
  {
    if j == |names| then Ok([])
    else match CellAt(src, names[j], i)
      case Err(m) => Err(m)
      case Ok(v) => match RowFrom(src, names, i, j + 1) case Err(m) => Err(m) case Ok(vs) => Ok([v] + vs)
  }

  function RowsFrom(src: Source, names: seq<string>, count: nat, i: nat): (r: Result<seq<seq<Value>>>)
    requires i <= count
    ensures r.Ok? ==> |r.value| == count - i
    decreases count - i
  {
    if i == count then Ok([])
    else match RowFrom(src, names, i, 0)
      case Err(m) => Err(m)
      case Ok(row) => match RowsFrom(src, names, count, i + 1) case Err(m) => Err(m) case Ok(rows) => Ok([row] + rows)
  }

  method RowLoop(src: Source, names: seq<string>, i: nat) returns (r: Result<seq<Value>>)
    ensures r == RowFrom(src, names, i, 0)
  {
    hide ColumnFor, Get;
    var row: seq<Value> := [];
    ghost var whole := RowFrom(src, names, i, 0);
    assert whole.Ok? ==> [] + whole.value == whole.value;
    for j := 0 to |names|
      invariant var rest := RowFrom(src, names, i, j);
                (rest.Err? ==> whole == Err(rest.reason)) && (rest.Ok? ==> whole == Ok(row + rest.value))
    {
      ghost var rest := RowFrom(src, names, i, j + 1);
      var cell: Value;
      if src.FromSearch? && names[j] == "_distance" {
        if i >= |src.scores| {
          return Err("incomplete search scores");
        }
        cell := src.scores[i];
      } else {
        var col := ColumnFor(src, names[j]);
        if col.None? {
          return Err("missing result field");
        }
        var got := Get(col.value, i);
        if got.Err? {
          return Err(got.reason);
        }
        cell := got.value;
      }
      if rest.Ok? { Assoc(row, [cell], rest.value); }
      row := row + [cell];
    }
    assert row + [] == row;
    return Ok(row);
  }

  method RowsLoop(src: Source, names: seq<string>, count: nat) returns (r: Result<seq<seq<Value>>>)
    ensures r == RowsFrom(src, names, count, 0)
  {
    hide RowFrom;
    var rows: seq<seq<Value>> := [];
    ghost var whole := RowsFrom(src, names, count, 0);
    assert whole.Ok? ==> [] + whole.value == whole.value;
    for i := 0 to count
      invariant var rest := RowsFrom(src, names, count, i);
                (rest.Err? ==> whole == Err(rest.reason)) && (rest.Ok? ==> whole == Ok(rows + rest.value))
    {
      var row := RowLoop(src, names, i);
      if row.Err? {
        return Err(row.reason);
      }
      ghost var rest := RowsFrom(src, names, count, i + 1);
      if rest.Ok? { Assoc(rows, [row.value], rest.value); }
      rows := rows + [row.value];
    }
    assert rows + [] == rows;
    return Ok(rows);
  }

  lemma {:induction false} RowExact(src: Source, names: seq<string>, i: nat, j: nat)
    requires j <= |names|
    ensures RowFrom(src, names, i, j).Ok? <==> forall k :: j <= k < |names| ==> CellAt(src, names[k], i).Ok?
    ensures RowFrom(src, names, i, j).Ok? ==>
              forall k :: 0 <= k < |names| - j ==> CellAt(src, names[j + k], i) == Ok(RowFrom(src, names, i, j).value[k])
    decreases |names| - j
  {
    hide CellAt;
    if j < |names| {
      RowExact(src, names, i, j + 1);
      if RowFrom(src, names, i, j).Ok? {
        forall k | 0 < k < |names| - j
          ensures CellAt(src, names[j + k], i) == Ok(RowFrom(src, names, i, j).value[k])
        {
          assert j + k == j + 1 + (k - 1);
        }
      }
    }
  }

  predicate RowOk(src: Source, names: seq<string>, i: nat) {
    forall k :: 0 <= k < |names| ==> CellAt(src, names[k], i).Ok?
  }

  predicate IsRow(row: seq<Value>, src: Source, names: seq<string>, i: nat) {
    |row| == |names| && forall k :: 0 <= k < |names| ==> CellAt(src, names[k], i) == Ok(row[k])
  }

  /** Assembly is exact: it succeeds when every cell exists, and then row i holds
      cell i of the column of each name, in the order of the projection. */
  lemma {:induction false} RowsExact(src: Source, names: seq<string>, count: nat, i: nat)
    requires i <= count
    ensures RowsFrom(src, names, count, i).Ok? <==> forall k :: i <= k < count ==> RowOk(src, names, k)
    ensures RowsFrom(src, names, count, i).Ok? ==>
              forall k :: 0 <= k < count - i ==> IsRow(RowsFrom(src, names, count, i).value[k], src, names, i + k)
    decreases count - i
  {
    hide CellAt, RowFrom, IsRow, RowOk;
    if i < count {
      RowsExact(src, names, count, i + 1);
      RowIsRow(src, names, i);
      if RowsFrom(src, names, count, i).Ok? {
        forall k | 0 < k < count - i ensures IsRow(RowsFrom(src, names, count, i).value[k], src, names, i + k) {
          assert i + k == i + 1 + (k - 1);
        }
      }
    }
  }

  lemma RowIsRow(src: Source, names: seq<string>, i: nat)
    ensures RowFrom(src, names, i, 0).Ok? <==> RowOk(src, names, i)
    ensures RowFrom(src, names, i, 0).Ok? ==> IsRow(RowFrom(src, names, i, 0).value, src, names, i)
  {
    hide CellAt;
    RowExact(src, names, i, 0);
  }

  /** The first column of a name. */
  predicate FirstNamed(cols: seq<Col>, name: string, k: nat) {
    k < |cols| && cols[k].name == name && forall j :: 0 <= j < k ==> cols[j].name != name
  }

  lemma {:induction false} ColumnFound(cols: seq<Col>, name: string, k: nat)
    requires FirstNamed(cols, name, k)
    ensures GetColumn(cols, name) == Some(cols[k])
  {
    if k > 0 {
      assert forall j :: 0 <= j < k - 1 ==> cols[1..][j] == cols[j + 1];
      ColumnFound(cols[1..], name, k - 1);
    }
  }

  /** `r` is the i-th value of a column, if it has one. */
  predicate Holds(r: Result<Value>, c: Col, i: nat) {
    if i < |c.values| then r == Ok(c.values[i]) else r.Err?
  }

  /** Where the cells of a row come from: a query's from the first column of the
      name; a search's scores under `_distance`, its IDs under the primary key
      if no column carries it, and the first column of the name otherwise. */
  lemma CellsFound(src: Source, name: string, i: nat, k: nat)
    ensures FirstNamed(src.cols, name, k) && !(src.FromSearch? && name == "_distance") ==>
              Holds(CellAt(src, name, i), src.cols[k], i)
    ensures src.FromQuery? && (forall j :: 0 <= j < |src.cols| ==> src.cols[j].name != name) ==> CellAt(src, name, i).Err?
    ensures src.FromSearch? && name == "_distance" ==>
              (if i < |src.scores| then CellAt(src, name, i) == Ok(src.scores[i]) else CellAt(src, name, i).Err?)
    ensures src.FromSearch? && name == src.pk && name != "_distance" && src.ids.Some?
            && (forall j :: 0 <= j < |src.cols| ==> src.cols[j].name != name) ==>
              Holds(CellAt(src, name, i), src.ids.value, i)
  {
    hide GetColumn;
    if FirstNamed(src.cols, name, k) {
      ColumnFound(src.cols, name, k);
      if src.FromSearch? && src.ids.Some? {
        var more := src.cols + [src.ids.value];
        assert forall j :: 0 <= j < |src.cols| ==> more[j] == src.cols[j];
        ColumnFound(more, name, k);
      }
    } else if src.FromSearch? && src.ids.Some? && forall j :: 0 <= j < |src.cols| ==> src.cols[j].name != name {
      IdsFound(src.cols, src.ids.value, name);
    }
  }

  lemma IdsFound(cols: seq<Col>, ids: Col, name: string)
    requires forall j :: 0 <= j < |cols| ==> cols[j].name != name
    ensures GetColumn(cols + [ids], name) == if ids.name == name then Some(ids) else None
  {
    hide GetColumn;
    if ids.name == name { ColumnFound(cols + [ids], name, |cols|); }
  }
}
