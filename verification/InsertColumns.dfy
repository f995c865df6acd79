/** The write path: INSERT rows become one column per field, after every name,
    row and cell has been validated. */
module InsertColumns {
  import opened Prelude
  import opened SqlAst
  import opened Results
  import Wire

  /** A cell in the Go type its column holds. Floats are opaque bit patterns. */
  datatype Cell =
    | CellBool(b: bool)
    | CellInt(n: int, bits: nat)
    | CellFloat(value: nat, bits: nat)
    | CellText(s: string)
    | CellJson(s: string)
    | CellVector(v: seq<nat>)

  datatype MilvusColumn = MilvusColumn(name: string, kind: FieldType, dim: nat, data: seq<Cell>)

  /** JSON and float parsing, left to the Go libraries. */
  datatype DataLib = DataLib(
    jsonValid: string -> bool,
    rawElements: string -> Option<seq<string>>,
    vector: string -> Option<seq<nat>>,
    parseFloat: (string, nat) -> Option<nat>,
    finite: nat -> bool)

  function Param(f: SchemaField, key: string): string {
    if key in f.params then f.params[key] else ""
  }

  /** `strconv.Atoi` on a type parameter. */
  function ParamInt(f: SchemaField, key: string): Option<int> {
    ParseInt(Param(f, key), 64)
  }

  function IntBits(kind: FieldType): nat {
    match kind case FInt8 => 8 case FInt16 => 16 case FInt32 => 32 case _ => 64
  }

  predicate IsInt(kind: FieldType) {
    kind == FInt8 || kind == FInt16 || kind == FInt32 || kind == FInt64
  }

  function EmptyColumn(f: SchemaField): Result<MilvusColumn> {
    if IsInt(f.kind) || f.kind in {FBool, FFloat, FDouble, FVarChar, FJson} then
      Ok(MilvusColumn(f.name, f.kind, 0, []))
    else if f.kind == FFloatVector then
      match ParamInt(f, "dim")
      case None => Err("invalid vector dimension")
      case Some(dim) => if dim <= 0 then Err("invalid vector dimension") else Ok(MilvusColumn(f.name, f.kind, dim, []))
    else Err("unsupported field type")
  }

  /** A field has a column exactly if its type does, with a positive dimension for a
      vector; the column has its name, type and dimension and no cells. */
  lemma EmptyColumnsExact(f: SchemaField)
    ensures (EmptyColumn(f).Ok?
             <==> && f.kind != FString && f.kind != FOtherType
                  && (f.kind == FFloatVector ==> ParamInt(f, "dim").Some? && ParamInt(f, "dim").value > 0))
    ensures EmptyColumn(f).Ok? ==>
              EmptyColumn(f).value == MilvusColumn(f.name, f.kind, if f.kind == FFloatVector then ParamInt(f, "dim").value else 0, [])
  {
    hide ParamInt;
  }

  /** The Go type a column's `AppendValue` accepts. */
  predicate Accepts(kind: FieldType, v: Cell) {
    match v
    case CellBool(_) => kind == FBool
    case CellInt(_, bits) => IsInt(kind) && bits == IntBits(kind)
    case CellFloat(_, bits) => (kind == FFloat && bits == 32) || (kind == FDouble && bits == 64)
    case CellText(_) => kind == FVarChar
    case CellJson(_) => kind == FJson
    case CellVector(_) => kind == FFloatVector
  }

  function AppendValue(c: MilvusColumn, v: Cell): Result<MilvusColumn> {
    if Accepts(c.kind, v) then Ok(c.(data := c.data + [v])) else Err("invalid type")
  }

  function LiteralText(e: Expr): Result<string> {
    match e
    case Literal(kind, text) => if kind != OtherVal then Ok(text) else Err("expected a literal value")
    case BoolLit(b) => Ok(if b then "true" else "false")
    case Unary(op, operand) =>
      if IsSignedNumber(e) then Ok(op + operand.text) else Err("expected a literal value")
    case _ => Err("expected a literal value")
  }

  /** A vector may be written `json_vector('...')`. */
  function VectorArgument(e: Expr): Result<Expr> {
    if !e.Func? then Ok(e)
    else if !EqualFold(e.name, "json_vector") || |e.args| != 1 then Err("expected json_vector(string)")
    else if e.args[0].None? then Err("invalid vector argument")
    else Ok(e.args[0].value)
  }

  function FieldValue(f: SchemaField, e: Expr, lib: DataLib): Result<Cell> {
    var arg := if f.kind == FFloatVector then VectorArgument(e) else Ok(e);
    match arg
    case Err(m) => Err(m)
    case Ok(x) =>
      match LiteralText(x)
      case Err(m) => Err(m)
      case Ok(text) => CellValue(f, x, text, lib)
  }

  function CellValue(f: SchemaField, e: Expr, text: string, lib: DataLib): Result<Cell> {
    if f.kind == FBool then
      match Wire.ParseBool(text) case None => Err("invalid syntax") case Some(b) => Ok(CellBool(b))
    else if IsInt(f.kind) then
      match ParseInt(text, IntBits(f.kind)) case None => Err("invalid syntax") case Some(n) => Ok(CellInt(n, IntBits(f.kind)))
    else if f.kind == FFloat || f.kind == FDouble then
      var bits := if f.kind == FFloat then 32 else 64;
      match lib.parseFloat(text, bits)
      case None => Err("invalid syntax")
      case Some(x) => if lib.finite(x) then Ok(CellFloat(x, bits)) else Err("non-finite float")
    else if f.kind == FVarChar then
      if !(e.Literal? && e.kind == StrVal) then Err("expected string literal")
      else
        var max := ParamInt(f, "max_length");
        if max.None? || |text| > max.value then Err("string exceeds max_length") else Ok(CellText(text))
    else if f.kind == FJson then
      if lib.jsonValid(text) then Ok(CellJson(text)) else Err("invalid JSON")
    else if f.kind == FFloatVector then VectorValue(f, text, lib)
    else Err("unsupported field type")
  }

  function VectorValue(f: SchemaField, text: string, lib: DataLib): Result<Cell> {
    var raw := lib.rawElements(text);
    if raw.None? then Err("invalid vector")
    else if "null" in raw.value then Err("vector elements must be numbers")
    else match lib.vector(text)
      case None => Err("invalid vector")
      case Some(v) =>
        var dim := match ParamInt(f, "dim") case None => 0 case Some(n) => n;
        if |v| != dim then Err("vector dimension mismatch") else Ok(CellVector(v))
  }

  /** A validated cell always fits its column: appending it cannot fail. */
  lemma CellFitsColumn(f: SchemaField, e: Expr, lib: DataLib)
    requires EmptyColumn(f).Ok? && FieldValue(f, e, lib).Ok?
    ensures EmptyColumn(f).value.kind == f.kind && Accepts(f.kind, FieldValue(f, e, lib).value)
  {
    hide ParseInt, LiteralText, VectorArgument;
  }

  /** The literals and the texts they stand for. */
  predicate Reads(e: Expr, text: string) {
    || e == Literal(StrVal, text) || e == Literal(IntVal, text) || e == Literal(FloatVal, text)
    || (e == BoolLit(true) && text == "true") || (e == BoolLit(false) && text == "false")
    || (e.Unary? && (e.op == "-" || e.op == "+") && e.operand.Literal? && (e.operand.kind == IntVal || e.operand.kind == FloatVal)
        && text == e.op + e.operand.text)
  }

  lemma TextsRead(e: Expr)
    ensures forall text :: Reads(e, text) <==> LiteralText(e) == Ok(text)
  {
    assert "true" != "false" by { assert "true"[0] == 't' && "false"[0] == 'f'; }
  }

  /** The cell a literal's text is in a column of a type: a truth value in any of its
      spellings, an integer of the column's width, a finite float of its precision, a
      quoted string within the length, JSON, or a vector of the dimension. */
  predicate IsCell(v: Cell, f: SchemaField, e: Expr, text: string, lib: DataLib) {
    match f.kind
    case FBool => Wire.ParseBool(text).Some? && v == CellBool(Wire.ParseBool(text).value)
    case FInt8 => ParseInt(text, 8).Some? && v == CellInt(ParseInt(text, 8).value, 8)
    case FInt16 => ParseInt(text, 16).Some? && v == CellInt(ParseInt(text, 16).value, 16)
    case FInt32 => ParseInt(text, 32).Some? && v == CellInt(ParseInt(text, 32).value, 32)
    case FInt64 => ParseInt(text, 64).Some? && v == CellInt(ParseInt(text, 64).value, 64)
    case FFloat => lib.parseFloat(text, 32).Some? && lib.finite(lib.parseFloat(text, 32).value)
                   && v == CellFloat(lib.parseFloat(text, 32).value, 32)
    case FDouble => lib.parseFloat(text, 64).Some? && lib.finite(lib.parseFloat(text, 64).value)
                    && v == CellFloat(lib.parseFloat(text, 64).value, 64)
    case FVarChar => e == Literal(StrVal, text) && v == CellText(text)
                     && ParseInt(Param(f, "max_length"), 64).Some? && |text| <= ParseInt(Param(f, "max_length"), 64).value
    case FJson => lib.jsonValid(text) && v == CellJson(text)
    case FFloatVector =>
      && v.CellVector? && lib.rawElements(text).Some? && "null" !in lib.rawElements(text).value
      && lib.vector(text) == Some(v.v)
      && |v.v| == if ParseInt(Param(f, "dim"), 64).Some? then ParseInt(Param(f, "dim"), 64).value else 0
    case FString => false
    case FOtherType => false
  }

  /** What is read as the value of `e`: itself, or the argument of `json_vector` where
      a vector is due. */
  predicate Unwraps(e: Expr, x: Expr, kind: FieldType) {
    if kind == FFloatVector && e.Func? then EqualFold(e.name, "json_vector") && e.args == [Some(x)] else x == e
  }

  /** Exactly the literals whose text is a cell of the field's type are its values. */
  lemma FieldValuesExact(f: SchemaField, e: Expr, x: Expr, text: string, v: Cell, lib: DataLib)
    ensures Unwraps(e, x, f.kind) && Reads(x, text) ==>
              (FieldValue(f, e, lib) == Ok(v) <==> IsCell(v, f, x, text, lib))
    ensures (forall y :: !Unwraps(e, y, f.kind)) || (Unwraps(e, x, f.kind) && forall t :: !Reads(x, t)) ==>
              FieldValue(f, e, lib).Err?
  {
    hide Reads, IsCell, EqualFold, LiteralText, CellValue;
    TextsRead(x);
    if Reads(x, text) { CellsRead(f, x, text, v, lib); }
    if e.Func? && f.kind == FFloatVector && VectorArgument(e).Ok? {
      assert e.args == [Some(VectorArgument(e).value)];
      assert Unwraps(e, VectorArgument(e).value, f.kind);
    } else if !(e.Func? && f.kind == FFloatVector) {
      assert Unwraps(e, e, f.kind);
    }
  }

  lemma CellsRead(f: SchemaField, x: Expr, text: string, v: Cell, lib: DataLib)
    requires Reads(x, text)
    ensures CellValue(f, x, text, lib) == Ok(v) <==> IsCell(v, f, x, text, lib)
  {
    hide ParseInt, Wire.ParseBool;
  }

  // --------------------------------------------------------- FillInsertColumns

  /** `rows` is absent for INSERT ... SELECT. */
  datatype Insert = Insert(
    table: string, qualified: bool, ignore: bool, onDuplicate: bool, partitions: bool,
    columns: seq<string>, rows: Option<seq<seq<Expr>>>, replace: bool)

  function Names(fields: seq<SchemaField>, ins: Insert): seq<string> {
    if |ins.columns| == 0 then InsertableNames(fields) else ins.columns
  }

  function NameError(fields: seq<SchemaField>, names: seq<string>, k: nat): Option<string>
    requires k < |names|
  {
    match FieldNamed(fields, names[k])
    case None => Some("unknown field")
    case Some(f) =>
      if names[k] in names[..k] then Some("duplicate field")
      else if f.autoId then Some("auto-ID field must be omitted")
      else None
  }

  function NamesError(fields: seq<SchemaField>, names: seq<string>, k: nat): Option<string>
    requires k <= |names|
    decreases |names| - k
  {
    if k == |names| then None
    else if NameError(fields, names, k).Some? then NameError(fields, names, k)
    else NamesError(fields, names, k + 1)
  }

  predicate HasAutoId(fields: seq<SchemaField>) {
    exists k :: 0 <= k < |fields| && fields[k].autoId
  }

  predicate Missing(fields: seq<SchemaField>, names: seq<string>) {
    exists k :: 0 <= k < |fields| && !fields[k].autoId && fields[k].name !in names
  }

  predicate Ragged(rows: seq<seq<Expr>>, width: nat) {
    exists i :: 0 <= i < |rows| && |rows[i]| != width
  }

  function ColumnCells(f: SchemaField, rows: seq<seq<Expr>>, j: nat, i: nat, lib: DataLib): (r: Result<seq<Cell>>)
    requires forall k :: 0 <= k < |rows| ==> j < |rows[k]|
    requires i <= |rows|
    ensures r.Ok? ==> |r.value| == |rows| - i
    decreases |rows| - i
  {
    if i == |rows| then Ok([])
    else match FieldValue(f, rows[i][j], lib)
      case Err(m) => Err(m)
      case Ok(v) =>
        match ColumnCells(f, rows, j, i + 1, lib) case Err(m) => Err(m) case Ok(vs) => Ok([v] + vs)
  }

  function BuildColumn(f: SchemaField, rows: seq<seq<Expr>>, j: nat, lib: DataLib): Result<MilvusColumn>
    requires forall k :: 0 <= k < |rows| ==> j < |rows[k]|
  {
    match EmptyColumn(f)
    case Err(m) => Err(m)
    case Ok(c) => match ColumnCells(f, rows, j, 0, lib) case Err(m) => Err(m) case Ok(vs) => Ok(c.(data := vs))
  }

  predicate AllKnown(fields: seq<SchemaField>, names: seq<string>) {
    forall k :: 0 <= k < |names| ==> FieldNamed(fields, names[k]).Some?
  }

  function BuildColumns(fields: seq<SchemaField>, names: seq<string>, rows: seq<seq<Expr>>, j: nat, lib: DataLib)
    : (r: Result<seq<MilvusColumn>>)
    requires !Ragged(rows, |names|) && AllKnown(fields, names) && j <= |names|
    ensures r.Ok? ==> |r.value| == |names| - j
    decreases |names| - j
  {
    if j == |names| then Ok([])
    else match BuildColumn(FieldNamed(fields, names[j]).value, rows, j, lib)
      case Err(m) => Err(m)
      case Ok(c) =>
        match BuildColumns(fields, names, rows, j + 1, lib) case Err(m) => Err(m) case Ok(cs) => Ok([c] + cs)
  }

  function FillInsertColumns(fields: seq<SchemaField>, ins: Insert, lib: DataLib): Result<seq<MilvusColumn>> {
    if ins.rows.None? || |ins.rows.value| == 0 then Err("INSERT requires VALUES rows")
    else
      var names, rows := Names(fields, ins), ins.rows.value;
      NamesKnown(fields, names);
      if NamesError(fields, names, 0).Some? then Err(NamesError(fields, names, 0).value)
      else if ins.replace && HasAutoId(fields) then Err("upsert requires a key")
      else if Missing(fields, names) then Err("missing field")
      else if Ragged(rows, |names|) then Err("wrong number of values")
      else BuildColumns(fields, names, rows, 0, lib)
  }

  /** No name is unknown, repeated or auto-ID exactly when none is reported. */
  lemma {:induction false} NamesErrorMeans(fields: seq<SchemaField>, names: seq<string>, k: nat)
    requires k <= |names|
    ensures NamesError(fields, names, k).None? <==> forall j :: k <= j < |names| ==> NameError(fields, names, j).None?
    decreases |names| - k
  {
    hide NameError;
    if k < |names| { NamesErrorMeans(fields, names, k + 1); }
  }

  lemma NamesKnown(fields: seq<SchemaField>, names: seq<string>)
    ensures NamesError(fields, names, 0).None? ==> AllKnown(fields, names)
  {
    hide NamesError, FieldNamed;
    NamesErrorMeans(fields, names, 0);
    if NamesError(fields, names, 0).None? {
      forall k | 0 <= k < |names| ensures FieldNamed(fields, names[k]).Some? {
        assert NameError(fields, names, k).None?;
      }
    }
  }

  // The code builds the columns with loops, appending cell by cell.

  lemma CellsUnfold(f: SchemaField, rows: seq<seq<Expr>>, j: nat, i: nat, lib: DataLib)
    requires (forall k :: 0 <= k < |rows| ==> j < |rows[k]|) && i < |rows|
    ensures var v, rest := FieldValue(f, rows[i][j], lib), ColumnCells(f, rows, j, i + 1, lib);
            ColumnCells(f, rows, j, i, lib)
            == if v.Err? then Err(v.reason) else if rest.Err? then Err(rest.reason) else Ok([v.value] + rest.value)
  {
    hide FieldValue;
  }

  method BuildColumnLoop(f: SchemaField, rows: seq<seq<Expr>>, j: nat, lib: DataLib) returns (r: Result<MilvusColumn>)
    requires forall k :: 0 <= k < |rows| ==> j < |rows[k]|
    ensures r == BuildColumn(f, rows, j, lib)
  {
    hide FieldValue, ColumnCells;
    var empty := EmptyColumn(f);
    if empty.Err? {
      return Err(empty.reason);
    }
    EmptyKind(f);
    var column := empty.value;
    ghost var whole := ColumnCells(f, rows, j, 0, lib);
    assert whole.Ok? ==> [] + whole.value == whole.value;
    for i := 0 to |rows|
      invariant column == empty.value.(data := column.data)
      invariant var rest := ColumnCells(f, rows, j, i, lib);
                (rest.Err? ==> whole == Err(rest.reason)) && (rest.Ok? ==> whole == Ok(column.data + rest.value))
    {
      CellsUnfold(f, rows, j, i, lib);
      var v := FieldValue(f, rows[i][j], lib);
      if v.Err? {
        return Err(v.reason);
      }
      CellFitsColumn(f, rows[i][j], lib);
      ghost var rest := ColumnCells(f, rows, j, i + 1, lib);
      if rest.Ok? { Assoc(column.data, [v.value], rest.value); }
      assert AppendValue(column, v.value).Ok?;
      column := AppendValue(column, v.value).value;
    }
    CellsDone(f, rows, j, lib);
    assert column.data + [] == column.data;
    return Ok(column);
  }

  lemma EmptyKind(f: SchemaField)
    ensures EmptyColumn(f).Ok? ==> EmptyColumn(f).value.kind == f.kind && EmptyColumn(f).value.data == []
  {
  }

  lemma CellsDone(f: SchemaField, rows: seq<seq<Expr>>, j: nat, lib: DataLib)
    requires forall k :: 0 <= k < |rows| ==> j < |rows[k]|
    ensures ColumnCells(f, rows, j, |rows|, lib) == Ok([])
  {
  }

  lemma ColumnsUnfold(fields: seq<SchemaField>, names: seq<string>, rows: seq<seq<Expr>>, j: nat, lib: DataLib)
    requires !Ragged(rows, |names|) && AllKnown(fields, names) && j < |names|
    ensures forall k :: 0 <= k < |rows| ==> |rows[k]| == |names|
    ensures var c := BuildColumn(FieldNamed(fields, names[j]).value, rows, j, lib);
            var rest := BuildColumns(fields, names, rows, j + 1, lib);
            BuildColumns(fields, names, rows, j, lib)
            == if c.Err? then Err(c.reason) else if rest.Err? then Err(rest.reason) else Ok([c.value] + rest.value)
  {
    hide BuildColumn;
  }

  lemma ColumnsDone(fields: seq<SchemaField>, names: seq<string>, rows: seq<seq<Expr>>, lib: DataLib)
    requires !Ragged(rows, |names|) && AllKnown(fields, names)
    ensures BuildColumns(fields, names, rows, |names|, lib) == Ok([])
  {
  }

  method BuildColumnsLoop(fields: seq<SchemaField>, names: seq<string>, rows: seq<seq<Expr>>, lib: DataLib)
    returns (r: Result<seq<MilvusColumn>>)
    requires !Ragged(rows, |names|) && AllKnown(fields, names)
    ensures r == BuildColumns(fields, names, rows, 0, lib)
  {
    hide BuildColumn, BuildColumns, Ragged;
    var columns: seq<MilvusColumn> := [];
    ghost var whole := BuildColumns(fields, names, rows, 0, lib);
    assert whole.Ok? ==> [] + whole.value == whole.value;
    for j := 0 to |names|
      invariant var rest := BuildColumns(fields, names, rows, j, lib);
                (rest.Err? ==> whole == Err(rest.reason)) && (rest.Ok? ==> whole == Ok(columns + rest.value))
    {
      ColumnsUnfold(fields, names, rows, j, lib);
      var c := BuildColumnLoop(FieldNamed(fields, names[j]).value, rows, j, lib);
      if c.Err? {
        return Err(c.reason);
      }
      ghost var rest := BuildColumns(fields, names, rows, j + 1, lib);
      if rest.Ok? { Assoc(columns, [c.value], rest.value); }
      columns := columns + [c.value];
    }
    ColumnsDone(fields, names, rows, lib);
    assert columns + [] == columns;
    return Ok(columns);
  }

  method CheckNames(fields: seq<SchemaField>, names: seq<string>) returns (r: Option<string>)
    ensures r == NamesError(fields, names, 0)
  {
    hide FieldNamed;
    var seen: set<string> := {};
    for k := 0 to |names|
      invariant seen == set n | n in names[..k]
      invariant NamesError(fields, names, 0) == NamesError(fields, names, k)
    {
      assert names[..k + 1] == names[..k] + [names[k]];
      var f := FieldNamed(fields, names[k]);
      if f.None? {
        return Some("unknown field");
      }
      if names[k] in seen {
        return Some("duplicate field");
      }
      seen := seen + {names[k]};
      if f.value.autoId {
        return Some("auto-ID field must be omitted");
      }
    }
    return None;
  }

  method NamesLoop(fields: seq<SchemaField>, ins: Insert) returns (names: seq<string>)
    ensures names == Names(fields, ins)
  {
    if |ins.columns| > 0 {
      return ins.columns;
    }
    names := [];
    assert fields[0..] == fields;
    for k := 0 to |fields|
      invariant InsertableNames(fields) == names + InsertableNames(fields[k..])
    {
      assert fields[k..][1..] == fields[k + 1..];
      if !fields[k].autoId {
        names := names + [fields[k].name];
      }
    }
    assert names + [] == names;
  }

  method CheckReplace(fields: seq<SchemaField>, replace: bool) returns (bad: bool)
    ensures bad <==> replace && HasAutoId(fields)
  {
    if replace {
      for k := 0 to |fields|
        invariant forall i :: 0 <= i < k ==> !fields[i].autoId
      {
        if fields[k].autoId {
          return true;
        }
      }
    }
    return false;
  }

  method CheckMissing(fields: seq<SchemaField>, names: seq<string>) returns (bad: bool)
    ensures bad <==> Missing(fields, names)
  {
    for k := 0 to |fields|
      invariant forall i :: 0 <= i < k ==> fields[i].autoId || fields[i].name in names
    {
      if !fields[k].autoId && fields[k].name !in names {
        return true;
      }
    }
    return false;
  }

  method CheckWidths(rows: seq<seq<Expr>>, width: nat) returns (bad: bool)
    ensures bad <==> Ragged(rows, width)
  {
    for i := 0 to |rows|
      invariant forall k :: 0 <= k < i ==> |rows[k]| == width
    {
      if |rows[i]| != width {
        return true;
      }
    }
    return false;
  }

  method FillLoop(fields: seq<SchemaField>, ins: Insert, lib: DataLib) returns (r: Result<seq<MilvusColumn>>)
    ensures r == FillInsertColumns(fields, ins, lib)
  {
    hide BuildColumns, NamesError, FieldNamed, Names, Missing, HasAutoId, Ragged, AllKnown;
    if ins.rows.None? || |ins.rows.value| == 0 {
      return Err("INSERT requires VALUES rows");
    }
    var names := NamesLoop(fields, ins);
    NamesKnown(fields, names);
    var badName := CheckNames(fields, names);
    if badName.Some? {
      return Err(badName.value);
    }
    var badReplace := CheckReplace(fields, ins.replace);
    if badReplace {
      return Err("upsert requires a key");
    }
    var missing := CheckMissing(fields, names);
    if missing {
      return Err("missing field");
    }
    var ragged := CheckWidths(ins.rows.value, |names|);
    if ragged {
      return Err("wrong number of values");
    }
    r := BuildColumnsLoop(fields, names, ins.rows.value, lib);
  }

  // ---------------------------------------------------------------- properties

  predicate Distinct(names: seq<string>) {
    forall i, j :: 0 <= i < j < |names| ==> names[i] != names[j]
  }

  /** Column j names a field the caller must supply and every row has a value
      for it. */
  predicate ColumnValid(fields: seq<SchemaField>, names: seq<string>, rows: seq<seq<Expr>>, j: nat, lib: DataLib)
    requires j < |names|
  {
    && FieldNamed(fields, names[j]).Some?
    && !FieldNamed(fields, names[j]).value.autoId
    && CellsValid(FieldNamed(fields, names[j]).value, rows, j, lib)
  }

  predicate CellsValid(f: SchemaField, rows: seq<seq<Expr>>, j: nat, lib: DataLib) {
    && EmptyColumn(f).Ok?
    && forall i :: 0 <= i < |rows| ==> j < |rows[i]| && FieldValue(f, rows[i][j], lib).Ok?
  }

  /** What an INSERT must satisfy, said without an order of checks. */
  predicate ValidInsert(fields: seq<SchemaField>, ins: Insert, lib: DataLib) {
    && ins.rows.Some? && |ins.rows.value| > 0
    && (var names, rows := Names(fields, ins), ins.rows.value;
       && Distinct(names)
       && (ins.replace ==> !HasAutoId(fields))
       && !Missing(fields, names) && !Ragged(rows, |names|)
       && forall j :: 0 <= j < |names| ==> ColumnValid(fields, names, rows, j, lib))
  }

  lemma {:induction false} CellsExact(f: SchemaField, rows: seq<seq<Expr>>, j: nat, i: nat, lib: DataLib)
    requires (forall k :: 0 <= k < |rows| ==> j < |rows[k]|) && i <= |rows|
    ensures var r := ColumnCells(f, rows, j, i, lib);
            && (r.Ok? <==> forall k :: i <= k < |rows| ==> FieldValue(f, rows[k][j], lib).Ok?)
            && (r.Ok? ==> forall k :: i <= k < |rows| ==> FieldValue(f, rows[k][j], lib) == Ok(r.value[k - i]))
    decreases |rows| - i
  {
    hide FieldValue;
    if i < |rows| { CellsExact(f, rows, j, i + 1, lib); }
  }

  /** What a column of the result must be. */
  predicate IsColumn(c: MilvusColumn, fields: seq<SchemaField>, names: seq<string>, rows: seq<seq<Expr>>, j: nat, lib: DataLib)
    requires j < |names|
  {
    && c.name == names[j] && FieldNamed(fields, names[j]).Some? && c.kind == FieldNamed(fields, names[j]).value.kind
    && EmptyColumn(FieldNamed(fields, names[j]).value) == Ok(c.(data := []))
    && |c.data| == |rows|
    && forall i :: 0 <= i < |rows| ==>
         j < |rows[i]| && FieldValue(FieldNamed(fields, names[j]).value, rows[i][j], lib) == Ok(c.data[i])
  }

  lemma ColumnExact(fields: seq<SchemaField>, names: seq<string>, rows: seq<seq<Expr>>, j: nat, lib: DataLib)
    requires !Ragged(rows, |names|) && AllKnown(fields, names) && j < |names|
    ensures forall k :: 0 <= k < |rows| ==> |rows[k]| == |names|
    ensures var f := FieldNamed(fields, names[j]).value;
            var r := BuildColumn(f, rows, j, lib);
            && (r.Ok? <==> CellsValid(f, rows, j, lib))
            && (r.Ok? ==> IsColumn(r.value, fields, names, rows, j, lib))
  {
    hide FieldValue, ColumnCells;
    CellsExact(FieldNamed(fields, names[j]).value, rows, j, 0, lib);
  }

  predicate AllCellsValid(fields: seq<SchemaField>, names: seq<string>, rows: seq<seq<Expr>>, j: nat, lib: DataLib)
    requires AllKnown(fields, names)
  {
    forall k :: j <= k < |names| ==> CellsValid(FieldNamed(fields, names[k]).value, rows, k, lib)
  }

  predicate AreColumns(cs: seq<MilvusColumn>, fields: seq<SchemaField>, names: seq<string>, rows: seq<seq<Expr>>, j: nat,
                       lib: DataLib)
  {
    |cs| == |names| - j && forall k :: 0 <= k < |cs| ==> IsColumn(cs[k], fields, names, rows, j + k, lib)
  }

  lemma ConsColumns(c: MilvusColumn, cs: seq<MilvusColumn>, fields: seq<SchemaField>, names: seq<string>,
                    rows: seq<seq<Expr>>, j: nat, lib: DataLib)
    requires j < |names| && IsColumn(c, fields, names, rows, j, lib) && AreColumns(cs, fields, names, rows, j + 1, lib)
    ensures AreColumns([c] + cs, fields, names, rows, j, lib)
  {
    hide IsColumn;
    forall k | 0 <= k < |cs| + 1 ensures IsColumn(([c] + cs)[k], fields, names, rows, j + k, lib) {
      if k > 0 { assert IsColumn(cs[k - 1], fields, names, rows, j + 1 + (k - 1), lib); }
    }
  }

  lemma {:induction false} ColumnsExact(fields: seq<SchemaField>, names: seq<string>, rows: seq<seq<Expr>>, j: nat, lib: DataLib)
    requires !Ragged(rows, |names|) && AllKnown(fields, names) && j <= |names|
    ensures BuildColumns(fields, names, rows, j, lib).Ok? <==> AllCellsValid(fields, names, rows, j, lib)
    ensures BuildColumns(fields, names, rows, j, lib).Ok? ==>
              AreColumns(BuildColumns(fields, names, rows, j, lib).value, fields, names, rows, j, lib)
    decreases |names| - j
  {
    hide FieldValue, BuildColumn, FieldNamed, EmptyColumn, IsColumn, CellsValid, Ragged;
    if j < |names| {
      ColumnsExact(fields, names, rows, j + 1, lib);
      ColumnExact(fields, names, rows, j, lib);
      if BuildColumns(fields, names, rows, j, lib).Ok? {
        var c := BuildColumn(FieldNamed(fields, names[j]).value, rows, j, lib).value;
        ConsColumns(c, BuildColumns(fields, names, rows, j + 1, lib).value, fields, names, rows, j, lib);
      }
    }
  }

  predicate Suppliable(fields: seq<SchemaField>, name: string) {
    FieldNamed(fields, name).Some? && !FieldNamed(fields, name).value.autoId
  }

  lemma NameErrorsExact(fields: seq<SchemaField>, names: seq<string>)
    ensures (NamesError(fields, names, 0).None?
             <==> Distinct(names) && forall j :: 0 <= j < |names| ==> Suppliable(fields, names[j]))
  {
    hide FieldNamed, NamesError;
    NamesErrorMeans(fields, names, 0);
    if NamesError(fields, names, 0).None? {
      forall i, j | 0 <= i < j < |names| ensures names[i] != names[j] {
        assert NameError(fields, names, j).None?;
        assert names[..j][i] == names[i];
      }
      forall j | 0 <= j < |names| ensures Suppliable(fields, names[j]) {
        assert NameError(fields, names, j).None?;
      }
    }
    if Distinct(names) && forall j :: 0 <= j < |names| ==> Suppliable(fields, names[j]) {
      forall j | 0 <= j < |names| ensures NameError(fields, names, j).None? {
        assert Suppliable(fields, names[j]);
        assert names[j] !in names[..j];
      }
    }
  }

  lemma ColumnsValid(fields: seq<SchemaField>, names: seq<string>, rows: seq<seq<Expr>>, lib: DataLib)
    requires AllKnown(fields, names) && forall j :: 0 <= j < |names| ==> Suppliable(fields, names[j])
    ensures (AllCellsValid(fields, names, rows, 0, lib)
             <==> forall j :: 0 <= j < |names| ==> ColumnValid(fields, names, rows, j, lib))
  {
    hide FieldNamed, CellsValid;
    if forall j :: 0 <= j < |names| ==> ColumnValid(fields, names, rows, j, lib) {
      forall k | 0 <= k < |names| ensures CellsValid(FieldNamed(fields, names[k]).value, rows, k, lib) {
        assert ColumnValid(fields, names, rows, k, lib);
      }
    }
    if AllCellsValid(fields, names, rows, 0, lib) {
      forall j | 0 <= j < |names| ensures ColumnValid(fields, names, rows, j, lib) {
        assert Suppliable(fields, names[j]);
      }
    }
  }

  /** Transposition: an INSERT is accepted exactly when it is valid, and then
      column j holds field `names[j]`'s value of every row, in row order. */
  lemma InsertTransposes(fields: seq<SchemaField>, ins: Insert, lib: DataLib)
    ensures FillInsertColumns(fields, ins, lib).Ok? <==> ValidInsert(fields, ins, lib)
    ensures FillInsertColumns(fields, ins, lib).Ok? ==>
              AreColumns(FillInsertColumns(fields, ins, lib).value, fields, Names(fields, ins), ins.rows.value, 0, lib)
  {
    hide BuildColumns, IsColumn, NamesError, Distinct, Missing, HasAutoId, Ragged, ColumnValid, Suppliable, AllKnown,
      AllCellsValid, AreColumns, Names;
    if ins.rows.Some? && |ins.rows.value| > 0 {
      var names, rows := Names(fields, ins), ins.rows.value;
      NameErrorsExact(fields, names);
      NamesKnown(fields, names);
      if NamesError(fields, names, 0).None? {
        ColumnsValid(fields, names, rows, lib);
        if !Ragged(rows, |names|) { ColumnsExact(fields, names, rows, 0, lib); }
      } else {
        if forall j :: 0 <= j < |names| ==> ColumnValid(fields, names, rows, j, lib) { ValidNames(fields, names, rows, lib); }
      }
    }
  }

  lemma ValidNames(fields: seq<SchemaField>, names: seq<string>, rows: seq<seq<Expr>>, lib: DataLib)
    requires forall j :: 0 <= j < |names| ==> ColumnValid(fields, names, rows, j, lib)
    ensures forall j :: 0 <= j < |names| ==> Suppliable(fields, names[j])
  {
    hide FieldNamed, CellsValid;
    forall j | 0 <= j < |names| ensures Suppliable(fields, names[j]) {
      assert ColumnValid(fields, names, rows, j, lib);
    }
  }

  /** The columns are exactly the fields the caller must supply, each once. */
  lemma ColumnsAreFields(fields: seq<SchemaField>, ins: Insert, lib: DataLib)
    requires FillInsertColumns(fields, ins, lib).Ok? && UniqueNames(fields)
    ensures Distinct(Names(fields, ins))
    ensures forall k :: 0 <= k < |fields| ==> (fields[k].name in Names(fields, ins) <==> !fields[k].autoId)
    ensures forall n :: n in Names(fields, ins) ==> exists k :: 0 <= k < |fields| && fields[k].name == n
  {
    hide FieldValue, FillInsertColumns, FieldNamed, CellsValid, IsColumn, Distinct, HasAutoId, Ragged, Names;
    InsertTransposes(fields, ins, lib);
    var names, rows := Names(fields, ins), ins.rows.value;
    ValidNames(fields, names, rows, lib);
    forall k | 0 <= k < |fields| ensures fields[k].name in names <==> !fields[k].autoId {
      FieldNamedUnique(fields, k);
      if fields[k].name in names {
        var j :| 0 <= j < |names| && names[j] == fields[k].name;
        assert Suppliable(fields, names[j]);
      }
    }
    forall n | n in names ensures exists k :: 0 <= k < |fields| && fields[k].name == n {
      assert Suppliable(fields, n);
      assert FieldNamed(fields, n).value in fields;
    }
  }

  /** `b` lists the columns of `a` in the order `p`, with every row reordered the
      same way. */
  predicate Permuted(a: Insert, b: Insert, p: seq<nat>) {
    && |a.columns| == |b.columns| == |p| && |p| > 0 && a.replace == b.replace
    && Permutation(p)
    && (forall k :: 0 <= k < |p| ==> b.columns[k] == a.columns[p[k]])
    && a.rows.Some? && b.rows.Some? && |a.rows.value| == |b.rows.value|
    && forall i :: 0 <= i < |a.rows.value| ==> PermutedRow(a.rows.value[i], b.rows.value[i], p)
  }

  predicate Permutation(p: seq<nat>) {
    && (forall k :: 0 <= k < |p| ==> p[k] < |p|)
    && (forall k, l :: 0 <= k < l < |p| ==> p[k] != p[l])
    && (forall j :: 0 <= j < |p| ==> j in p)
  }

  /** The rows agree up to the order, or neither has a value per column. */
  predicate PermutedRow(a: seq<Expr>, b: seq<Expr>, p: seq<nat>)
    requires Permutation(p)
  {
    |a| == |b| && (|a| == |p| ==> forall k :: 0 <= k < |p| ==> b[k] == a[p[k]])
  }

  lemma PermutedNames(fields: seq<SchemaField>, a: Insert, b: Insert, p: seq<nat>)
    requires Permuted(a, b, p) && Distinct(a.columns) && !Missing(fields, a.columns)
    ensures Distinct(b.columns) && !Missing(fields, b.columns)
  {
    var names, names' := a.columns, b.columns;
    forall i, j | 0 <= i < j < |names'| ensures names'[i] != names'[j] {
      assert p[i] != p[j];
    }
    forall k | 0 <= k < |fields| && !fields[k].autoId ensures fields[k].name in names' {
      var j :| 0 <= j < |names| && names[j] == fields[k].name;
      assert j in p;
      var l :| 0 <= l < |p| && p[l] == j;
      assert names'[l] == fields[k].name;
    }
  }

  lemma PermutedColumn(fields: seq<SchemaField>, a: Insert, b: Insert, p: seq<nat>, k: nat, lib: DataLib)
    requires Permuted(a, b, p) && k < |p| && !Ragged(a.rows.value, |p|)
    requires ColumnValid(fields, a.columns, a.rows.value, p[k], lib)
    ensures ColumnValid(fields, b.columns, b.rows.value, k, lib)
  {
    hide FieldValue, FieldNamed, EmptyColumn;
    var f := FieldNamed(fields, b.columns[k]).value;
    forall i | 0 <= i < |b.rows.value|
      ensures k < |b.rows.value[i]| && FieldValue(f, b.rows.value[i][k], lib).Ok?
    {
      assert PermutedRow(a.rows.value[i], b.rows.value[i], p);
    }
  }

  lemma PermutedValid(fields: seq<SchemaField>, a: Insert, b: Insert, p: seq<nat>, lib: DataLib)
    requires Permuted(a, b, p) && ValidInsert(fields, a, lib)
    ensures ValidInsert(fields, b, lib)
  {
    hide HasAutoId, ColumnValid, Distinct, Missing;
    PermutedNames(fields, a, b, p);
    assert !Ragged(b.rows.value, |p|) by {
      forall i | 0 <= i < |b.rows.value| ensures |b.rows.value[i]| == |p| {
        assert PermutedRow(a.rows.value[i], b.rows.value[i], p);
      }
    }
    forall k | 0 <= k < |p| ensures ColumnValid(fields, b.columns, b.rows.value, k, lib) {
      PermutedColumn(fields, a, b, p, k, lib);
    }
  }

  ghost function IndexOf(p: seq<nat>, j: nat): (k: nat)
    requires j in p
    ensures k < |p| && p[k] == j
  {
    var k :| 0 <= k < |p| && p[k] == j;
    k
  }

  lemma Inverse(p: seq<nat>) returns (q: seq<nat>)
    requires Permutation(p)
    ensures |q| == |p| && Permutation(q)
    ensures forall j :: 0 <= j < |p| ==> p[q[j]] == j && q[p[j]] == j
  {
    q := seq(|p|, j requires 0 <= j < |p| => IndexOf(p, j));
    forall j | 0 <= j < |p| ensures p[q[j]] == j && q[p[j]] == j && j in q {
      assert p[q[p[j]]] == p[j];
      assert q[p[j]] in q;
    }
    forall k, l | 0 <= k < l < |q| ensures q[k] != q[l] {
      assert p[q[k]] == k && p[q[l]] == l;
    }
  }

  lemma PermutedBack(a: Insert, b: Insert, p: seq<nat>) returns (q: seq<nat>)
    requires Permuted(a, b, p)
    ensures Permuted(b, a, q)
  {
    q := Inverse(p);
    forall i | 0 <= i < |a.rows.value| ensures PermutedRow(b.rows.value[i], a.rows.value[i], q) {
      assert PermutedRow(a.rows.value[i], b.rows.value[i], p);
    }
  }

  /** The order in which columns are listed does not matter: both orders are
      accepted together, and then give each name the same column. */
  lemma PermutedInsert(fields: seq<SchemaField>, a: Insert, b: Insert, p: seq<nat>, lib: DataLib)
    requires Permuted(a, b, p)
    ensures FillInsertColumns(fields, a, lib).Ok? <==> FillInsertColumns(fields, b, lib).Ok?
    ensures FillInsertColumns(fields, a, lib).Ok? ==>
              && |FillInsertColumns(fields, a, lib).value| == |FillInsertColumns(fields, b, lib).value| == |p|
              && forall k :: 0 <= k < |p| ==>
                   FillInsertColumns(fields, b, lib).value[k] == FillInsertColumns(fields, a, lib).value[p[k]]
  {
    hide FillInsertColumns, ValidInsert, IsColumn;
    InsertTransposes(fields, a, lib);
    InsertTransposes(fields, b, lib);
    if ValidInsert(fields, b, lib) {
      var q := PermutedBack(a, b, p);
      PermutedValid(fields, b, a, q, lib);
    }
    if ValidInsert(fields, a, lib) {
      PermutedValid(fields, a, b, p, lib);
      var ca, cb := FillInsertColumns(fields, a, lib).value, FillInsertColumns(fields, b, lib).value;
      WidthOk(fields, a, lib);
      forall k | 0 <= k < |p| ensures cb[k] == ca[p[k]] {
        assert IsColumn(ca[p[k]], fields, a.columns, a.rows.value, 0 + p[k], lib);
        assert IsColumn(cb[k], fields, b.columns, b.rows.value, 0 + k, lib);
        SameColumn(fields, a, b, p, k, ca[p[k]], cb[k], lib);
      }
    }
  }

  lemma WidthOk(fields: seq<SchemaField>, a: Insert, lib: DataLib)
    requires ValidInsert(fields, a, lib) && |a.columns| > 0
    ensures !Ragged(a.rows.value, |a.columns|)
  {
  }

  lemma SameColumn(fields: seq<SchemaField>, a: Insert, b: Insert, p: seq<nat>, k: nat, c: MilvusColumn, d: MilvusColumn,
                   lib: DataLib)
    requires Permuted(a, b, p) && k < |p| && !Ragged(a.rows.value, |p|)
    requires IsColumn(c, fields, a.columns, a.rows.value, p[k], lib) && IsColumn(d, fields, b.columns, b.rows.value, k, lib)
    ensures c == d
  {
    hide FieldValue, FieldNamed, EmptyColumn;
    assert |c.data| == |d.data|;
    forall i | 0 <= i < |c.data| ensures c.data[i] == d.data[i] {
      assert PermutedRow(a.rows.value[i], b.rows.value[i], p);
      assert b.rows.value[i][k] == a.rows.value[i][p[k]];
    }
    assert c.(data := []).dim == d.(data := []).dim;
    assert c.data == d.data;
  }
}
