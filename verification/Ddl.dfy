/** CREATE TABLE to Milvus schema: which definitions are accepted, and that what
    is accepted can be inserted into. */
module Ddl {
  import opened Prelude
  import opened SqlAst
  import opened Results
  import opened InsertColumns
  import FilterText
  import Idents

  /** The parser's column types, as far as `MilvusDataTypeMap` tells them apart. */
  datatype SqlType =
    | SqlInt8 | SqlInt16 | SqlInt32 | SqlInt64 | SqlFloat32 | SqlFloat64
    | SqlText | SqlVarchar | SqlDate | SqlDatetime | SqlOther

  datatype KeyOption = KeyNone | KeyPrimary | KeyOther

  /** `options` stands for DEFAULT, ON UPDATE, UNSIGNED, ZEROFILL, a scale, a
      character set or a collation. */
  datatype ColumnDef = ColumnDef(
    name: string, typeName: string, sqlType: SqlType, length: Option<string>, options: bool,
    key: KeyOption, autoincrement: bool)

  datatype TableSpec = TableSpec(columns: seq<ColumnDef>, options: bool, indexes: bool)

  datatype Table = Table(name: string, qualified: bool, spec: Option<TableSpec>)

  /** `MilvusDataTypeMap`. */
  function MappedType(t: SqlType): Option<FieldType> {
    match t
    case SqlInt8 => Some(FInt8)
    case SqlInt16 => Some(FInt16)
    case SqlInt32 => Some(FInt32)
    case SqlInt64 => Some(FInt64)
    case SqlFloat32 => Some(FFloat)
    case SqlFloat64 => Some(FDouble)
    case SqlText => Some(FString)
    case SqlVarchar => Some(FVarChar)
    case SqlDate => Some(FInt32)
    case SqlDatetime => Some(FInt64)
    case SqlOther => None
  }

  const MAX_DIM := 32768
  const MAX_LENGTH := 65535

  predicate InRange(text: string, max: int) {
    ParseInt(text, 64).Some? && 1 <= ParseInt(text, 64).value <= max
  }

  predicate IsBool(c: ColumnDef) {
    EqualFold(c.typeName, "bool") || EqualFold(c.typeName, "boolean")
    || (c.typeName == "tinyint" && c.length == Some("1"))
  }

  /** A column's type and type parameters. */
  function TypeOf(c: ColumnDef): Result<(FieldType, map<string, string>)> {
    if IsBool(c) then Ok((FBool, map[]))
    else if EqualFold(c.typeName, "json") then Ok((FJson, map[]))
    else if c.typeName == "vector" then
      if c.length.None? then Err("vector dim is nil")
      else if !InRange(c.length.value, MAX_DIM) then Err("invalid dimension")
      else Ok((FFloatVector, map["dim" := c.length.value]))
    else match MappedType(c.sqlType)
      case None => Err("type not supported")
      case Some(kind) =>
        if kind != FVarChar then Ok((kind, map[]))
        else if c.length.None? then Err("missing max_length")
        else if !InRange(c.length.value, MAX_LENGTH) then Err("invalid length")
        else Ok((kind, map["max_length" := c.length.value]))
  }

  function FieldOf(c: ColumnDef): Result<SchemaField> {
    if c.options then Err("unsupported column options")
    else match TypeOf(c)
      case Err(m) => Err(m)
      case Ok((kind, params)) =>
        if c.key == KeyOther then Err("key option not supported")
        else if c.key == KeyNone && c.autoincrement then Err("auto-increment needs a key")
        else Ok(SchemaField(c.name, kind, c.key == KeyPrimary, c.key == KeyPrimary && c.autoincrement, params))
  }

  function FieldsOf(columns: seq<ColumnDef>): (r: Result<seq<SchemaField>>)
    ensures r.Ok? ==> |r.value| == |columns|
  {
    if columns == [] then Ok([])
    else match FieldOf(columns[0])
      case Err(m) => Err(m)
      case Ok(f) => match FieldsOf(columns[1..]) case Err(m) => Err(m) case Ok(fs) => Ok([f] + fs)
  }

  /** What is wrong with field k, given the fields before it. */
  function FieldError(fields: seq<SchemaField>, k: nat): Option<string>
    requires k < |fields|
  {
    var f := fields[k];
    if exists j :: 0 <= j < k && fields[j].name == f.name then Some("duplicate field")
    else if f.name == "_distance" then Some("_distance is reserved")
    else if !FilterText.FieldIdentifier(f.name) then Some("invalid field name")
    else if f.primaryKey && f.kind != FInt64 && f.kind != FVarChar then Some("unsupported key type")
    else if f.primaryKey && f.autoId && f.kind != FInt64 then Some("auto-ID requires BIGINT")
    else None
  }

  function FirstFieldError(fields: seq<SchemaField>, k: nat): Option<string>
    requires k <= |fields|
    decreases |fields| - k
  {
    if k == |fields| then None
    else if FieldError(fields, k).Some? then FieldError(fields, k)
    else FirstFieldError(fields, k + 1)
  }

  function PrimaryKeys(fields: seq<SchemaField>): nat {
    if fields == [] then 0
    else PrimaryKeys(fields[..|fields| - 1]) + if fields[|fields| - 1].primaryKey then 1 else 0
  }

  predicate HasVector(fields: seq<SchemaField>) {
    exists k :: 0 <= k < |fields| && fields[k].kind == FFloatVector
  }

  function CheckFields(fields: seq<SchemaField>): Result<seq<SchemaField>> {
    if FirstFieldError(fields, 0).Some? then Err(FirstFieldError(fields, 0).value)
    else if PrimaryKeys(fields) != 1 || !HasVector(fields) then
      Err("one key, some vector")
    else Ok(fields)
  }

  function SchemaOf(t: Table): Result<seq<SchemaField>> {
    match t.spec
    case None => Err("table spec is nil")
    case Some(spec) =>
      if t.qualified || spec.options || spec.indexes then
        Err("unsupported table clause")
      else match FieldsOf(spec.columns)
        case Err(m) => Err(m)
        case Ok(fields) => CheckFields(fields)
  }

  // ------------------------------------------------------------------ the code

  /** `columnToMilvusField` fills the field in step by step. */
  method ColumnToField(c: ColumnDef) returns (r: Result<SchemaField>)
    ensures r == FieldOf(c)
  {
    hide EqualFold, ParseInt;
    var field := SchemaField(c.name, FOtherType, false, false, map[]);
    if c.options {
      return Err("unsupported column options");
    }
    if EqualFold(c.typeName, "bool") || EqualFold(c.typeName, "boolean")
       || (c.typeName == "tinyint" && c.length.Some? && c.length.value == "1") {
      field := field.(kind := FBool);
    } else if EqualFold(c.typeName, "json") {
      field := field.(kind := FJson);
    } else if c.typeName == "vector" {
      field := field.(kind := FFloatVector);
      if c.length.None? {
        return Err("vector dim is nil");
      }
      var dim := ParseInt(c.length.value, 64);
      if dim.None? || dim.value < 1 || dim.value > MAX_DIM {
        return Err("invalid dimension");
      }
      field := field.(params := map["dim" := c.length.value]);
    } else {
      var kind := MappedType(c.sqlType);
      if kind.None? {
        return Err("type not supported");
      }
      field := field.(kind := kind.value);
      if field.kind == FVarChar {
        if c.length.None? {
          return Err("missing max_length");
        }
        var max := ParseInt(c.length.value, 64);
        if max.None? || max.value < 1 || max.value > MAX_LENGTH {
          return Err("invalid length");
        }
        field := field.(params := map["max_length" := c.length.value]);
      }
    }
    match c.key {
      case KeyPrimary =>
        field := field.(primaryKey := true);
        if c.autoincrement {
          field := field.(autoId := true);
        }
      case KeyNone =>
        if c.autoincrement {
          return Err("auto-increment needs a key");
        }
      case KeyOther =>
        return Err("key option not supported");
    }
    return Ok(field);
  }

  lemma FieldsUnfold(columns: seq<ColumnDef>, k: nat)
    requires k < |columns|
    ensures var f, rest := FieldOf(columns[k]), FieldsOf(columns[k + 1..]);
            FieldsOf(columns[k..])
            == if f.Err? then Err(f.reason) else if rest.Err? then Err(rest.reason) else Ok([f.value] + rest.value)
  {
    hide FieldOf;
    assert columns[k..][1..] == columns[k + 1..];
  }

  method FieldsLoop(columns: seq<ColumnDef>) returns (r: Result<seq<SchemaField>>)
    ensures r == FieldsOf(columns)
  {
    hide FieldOf, FieldsOf;
    var fields: seq<SchemaField> := [];
    ghost var whole := FieldsOf(columns);
    assert columns[0..] == columns;
    assert whole.Ok? ==> [] + whole.value == whole.value;
    for k := 0 to |columns|
      invariant var rest := FieldsOf(columns[k..]);
                (rest.Err? ==> whole == Err(rest.reason)) && (rest.Ok? ==> whole == Ok(fields + rest.value))
    {
      FieldsUnfold(columns, k);
      var f := ColumnToField(columns[k]);
      if f.Err? {
        return Err(f.reason);
      }
      ghost var rest := FieldsOf(columns[k + 1..]);
      if rest.Ok? { Assoc(fields, [f.value], rest.value); }
      fields := fields + [f.value];
    }
    NoFields(columns[|columns|..]);
    assert fields + [] == fields;
    return Ok(fields);
  }

  lemma NoFields(columns: seq<ColumnDef>)
    requires columns == []
    ensures FieldsOf(columns) == Ok([])
  {
  }

  method CheckLoop(fields: seq<SchemaField>) returns (r: Result<seq<SchemaField>>)
    ensures r == CheckFields(fields)
  {
    hide FilterText.FieldIdentifier;
    var seen: set<string> := {};
    var pk, vectors := 0, 0;
    for k := 0 to |fields|
      invariant seen == set j | 0 <= j < k :: fields[j].name
      invariant pk == PrimaryKeys(fields[..k])
      invariant vectors == 0 <==> !HasVector(fields[..k])
      invariant vectors >= 0
      invariant FirstFieldError(fields, 0) == FirstFieldError(fields, k)
    {
      var f := fields[k];
      assert fields[..k + 1][..k] == fields[..k];
      if f.name in seen {
        return Err("duplicate field");
      }
      seen := seen + {f.name};
      if f.name == "_distance" {
        return Err("_distance is reserved");
      }
      if !FilterText.FieldIdentifier(f.name) {
        return Err("invalid field name");
      }
      if f.primaryKey {
        pk := pk + 1;
        if f.kind != FInt64 && f.kind != FVarChar {
          return Err("unsupported key type");
        }
        if f.autoId && f.kind != FInt64 {
          return Err("auto-ID requires BIGINT");
        }
      }
      VectorsGrow(fields, k);
      if f.kind == FFloatVector {
        vectors := vectors + 1;
      }
    }
    assert fields[..|fields|] == fields;
    if pk != 1 || vectors == 0 {
      return Err("one key, some vector");
    }
    return Ok(fields);
  }

  lemma VectorsGrow(fields: seq<SchemaField>, k: nat)
    requires k < |fields|
    ensures HasVector(fields[..k + 1]) <==> HasVector(fields[..k]) || fields[k].kind == FFloatVector
  {
    if HasVector(fields[..k]) {
      var j :| 0 <= j < k && fields[..k][j].kind == FFloatVector;
      assert fields[..k + 1][j].kind == FFloatVector;
    }
    if fields[k].kind == FFloatVector { assert fields[..k + 1][k].kind == FFloatVector; }
    if HasVector(fields[..k + 1]) {
      var j :| 0 <= j < k + 1 && fields[..k + 1][j].kind == FFloatVector;
      if j < k { assert fields[..k][j].kind == FFloatVector; }
    }
  }

  method DdlToSchema(t: Table) returns (r: Result<seq<SchemaField>>)
    ensures r == SchemaOf(t)
  {
    if t.spec.None? {
      return Err("table spec is nil");
    }
    if t.qualified || t.spec.value.options || t.spec.value.indexes {
      return Err("unsupported table clause");
    }
    var fields := FieldsLoop(t.spec.value.columns);
    if fields.Err? {
      return Err(fields.reason);
    }
    r := CheckLoop(fields.value);
  }

  // ---------------------------------------------------------------- properties

  predicate GoodField(f: SchemaField) {
    && f.name != "_distance" && FilterText.FieldIdentifier(f.name)
    && (f.primaryKey ==> f.kind == FInt64 || f.kind == FVarChar)
    && (f.autoId ==> f.primaryKey && f.kind == FInt64)
    && (f.kind == FFloatVector ==> InRange(Param(f, "dim"), MAX_DIM))
    && (f.kind == FVarChar ==> InRange(Param(f, "max_length"), MAX_LENGTH))
    && f.kind != FOtherType
  }

  predicate IsOnlyKey(fields: seq<SchemaField>, k: nat) {
    k < |fields| && fields[k].primaryKey && forall j :: 0 <= j < |fields| && j != k ==> !fields[j].primaryKey
  }

  /** What every accepted schema is. */
  predicate GoodSchema(fields: seq<SchemaField>) {
    && UniqueNames(fields)
    && (forall k :: 0 <= k < |fields| ==> GoodField(fields[k]))
    && HasVector(fields)
    && exists k :: 0 <= k < |fields| && IsOnlyKey(fields, k)
  }

  lemma {:induction false} NoKeys(fields: seq<SchemaField>)
    ensures PrimaryKeys(fields) == 0 <==> forall k :: 0 <= k < |fields| ==> !fields[k].primaryKey
  {
    if fields != [] {
      NoKeys(fields[..|fields| - 1]);
      assert forall k :: 0 <= k < |fields| - 1 ==> fields[..|fields| - 1][k] == fields[k];
    }
  }

  /** Counting to one finds the one primary key. */
  lemma {:induction false} OneKey(fields: seq<SchemaField>)
    ensures PrimaryKeys(fields) == 1 <==> exists k :: 0 <= k < |fields| && IsOnlyKey(fields, k)
  {
    if fields != [] {
      var n := |fields| - 1;
      var init := fields[..n];
      OneKey(init);
      NoKeys(init);
      if fields[n].primaryKey {
        if PrimaryKeys(init) == 0 { assert IsOnlyKey(fields, n); }
        if k :| 0 <= k < |fields| && IsOnlyKey(fields, k) {
          assert k == n;
          forall j | 0 <= j < n ensures !init[j].primaryKey { assert !fields[j].primaryKey; }
        }
      } else {
        if k :| 0 <= k < |init| && IsOnlyKey(init, k) {
          forall j | 0 <= j < |fields| && j != k ensures !fields[j].primaryKey {
            if j < n { assert !init[j].primaryKey; }
          }
          assert IsOnlyKey(fields, k);
        }
        if k :| 0 <= k < |fields| && IsOnlyKey(fields, k) {
          assert IsOnlyKey(init, k);
        }
      }
    }
  }

  lemma {:induction false} FieldErrorsMean(fields: seq<SchemaField>, k: nat)
    requires k <= |fields|
    ensures FirstFieldError(fields, k).None? <==> forall j :: k <= j < |fields| ==> FieldError(fields, j).None?
    decreases |fields| - k
  {
    hide FieldError;
    if k < |fields| { FieldErrorsMean(fields, k + 1); }
  }

  lemma FieldGood(c: ColumnDef)
    requires FieldOf(c).Ok?
    ensures var f := FieldOf(c).value;
            && f.name == c.name && (f.autoId ==> f.primaryKey) && f.kind != FOtherType
            && (f.kind == FFloatVector ==> InRange(Param(f, "dim"), MAX_DIM))
            && (f.kind == FVarChar ==> InRange(Param(f, "max_length"), MAX_LENGTH))
  {
    hide InRange, IsBool, EqualFold;
  }

  lemma {:induction false} FieldsExact(columns: seq<ColumnDef>)
    ensures FieldsOf(columns).Ok? <==> forall k :: 0 <= k < |columns| ==> FieldOf(columns[k]).Ok?
    ensures FieldsOf(columns).Ok? ==> forall k :: 0 <= k < |columns| ==> FieldOf(columns[k]) == Ok(FieldsOf(columns).value[k])
  {
    hide FieldOf;
    if columns != [] { FieldsExact(columns[1..]); }
  }

  /** The column definitions that are accepted: no options, a known type with its
      length in range, and auto-increment only on a primary key. */
  predicate ValidColumn(c: ColumnDef) {
    && !c.options
    && (c.key == KeyNone || c.key == KeyPrimary) && (c.autoincrement ==> c.key == KeyPrimary)
    && (|| EqualFold(c.typeName, "bool") || EqualFold(c.typeName, "boolean")
        || (c.typeName == "tinyint" && c.length == Some("1"))
        || EqualFold(c.typeName, "json")
        || (if c.typeName == "vector" then c.length.Some? && InRange(c.length.value, 32768)
            else c.sqlType != SqlOther && (c.sqlType == SqlVarchar ==> c.length.Some? && InRange(c.length.value, 65535))))
  }

  /** Exactly the valid column definitions become fields, with their name and key. */
  lemma ColumnAccepted(c: ColumnDef)
    ensures FieldOf(c).Ok? <==> ValidColumn(c)
    ensures FieldOf(c).Ok? ==>
              var f := FieldOf(c).value;
              && f.name == c.name && (f.primaryKey <==> c.key == KeyPrimary)
              && (f.autoId <==> c.key == KeyPrimary && c.autoincrement)
  {
    hide EqualFold, InRange;
  }

  lemma ColumnsAccepted(columns: seq<ColumnDef>)
    ensures FieldsOf(columns).Ok? <==> forall k :: 0 <= k < |columns| ==> ValidColumn(columns[k])
  {
    hide ValidColumn, FieldOf;
    FieldsExact(columns);
    forall k | 0 <= k < |columns| ensures FieldOf(columns[k]).Ok? <==> ValidColumn(columns[k]) {
      ColumnAccepted(columns[k]);
    }
  }

  /** The tables that are accepted, said without an order of checks. */
  predicate ValidTable(t: Table) {
    && t.spec.Some? && !t.qualified && !t.spec.value.options && !t.spec.value.indexes
    && (forall k :: 0 <= k < |t.spec.value.columns| ==> ValidColumn(t.spec.value.columns[k]))
    && (FieldsOf(t.spec.value.columns).Ok? ==> GoodSchema(FieldsOf(t.spec.value.columns).value))
  }

  lemma FieldErrorExact(fields: seq<SchemaField>, k: nat)
    requires k < |fields|
    requires fields[k].autoId ==> fields[k].primaryKey
    requires fields[k].kind != FOtherType
    requires fields[k].kind == FFloatVector ==> InRange(Param(fields[k], "dim"), MAX_DIM)
    requires fields[k].kind == FVarChar ==> InRange(Param(fields[k], "max_length"), MAX_LENGTH)
    ensures (FieldError(fields, k).None?
             <==> GoodField(fields[k]) && forall j :: 0 <= j < k ==> fields[j].name != fields[k].name)
  {
    hide InRange, FilterText.FieldIdentifier;
  }

  lemma SchemaExact(columns: seq<ColumnDef>)
    requires FieldsOf(columns).Ok?
    ensures CheckFields(FieldsOf(columns).value).Ok? <==> GoodSchema(FieldsOf(columns).value)
  {
    hide FieldOf, FieldsOf, FieldError, GoodField, HasVector, InRange, FirstFieldError, IsOnlyKey;
    var fields := FieldsOf(columns).value;
    FieldsExact(columns);
    FieldErrorsMean(fields, 0);
    OneKey(fields);
    forall k | 0 <= k < |fields|
      ensures (FieldError(fields, k).None?
               <==> GoodField(fields[k]) && forall j :: 0 <= j < k ==> fields[j].name != fields[k].name)
    {
      FieldGood(columns[k]);
      FieldErrorExact(fields, k);
    }
    if FirstFieldError(fields, 0).None? {
      forall i, j | 0 <= i < j < |fields| ensures fields[i].name != fields[j].name {
        assert FieldError(fields, j).None?;
      }
      forall k | 0 <= k < |fields| ensures GoodField(fields[k]) {
        assert FieldError(fields, k).None?;
      }
    }
  }

  /** CREATE TABLE is accepted exactly when its schema is a good one, and then
      has one field per column, in order. */
  lemma SchemaAccepted(t: Table)
    ensures SchemaOf(t).Ok? <==> ValidTable(t)
    ensures SchemaOf(t).Ok? ==> SchemaOf(t) == FieldsOf(t.spec.value.columns) && GoodSchema(SchemaOf(t).value)
  {
    hide FieldsOf, GoodSchema, ValidColumn;
    if t.spec.Some? { ColumnsAccepted(t.spec.value.columns); }
    if t.spec.Some? && FieldsOf(t.spec.value.columns).Ok? { SchemaExact(t.spec.value.columns); }
  }

  predicate HasText(fields: seq<SchemaField>) {
    exists k :: 0 <= k < |fields| && fields[k].kind == FString
  }

  /** The insert path has a column for every accepted field but TEXT. */
  lemma EmptyColumnExact(f: SchemaField)
    requires GoodField(f)
    ensures EmptyColumn(f).Ok? <==> f.kind != FString
  {
    hide ParseInt, FilterText.FieldIdentifier;
  }

  /** A collection with a TEXT column accepts no INSERT at all. */
  lemma TextBlocksInserts(fields: seq<SchemaField>, ins: Insert, lib: DataLib)
    requires GoodSchema(fields) && HasText(fields)
    ensures FillInsertColumns(fields, ins, lib).Err?
  {
    hide FillInsertColumns, EmptyColumn, FieldNamed, HasVector, IsOnlyKey, InRange, FilterText.FieldIdentifier, FieldValue;
    InsertTransposes(fields, ins, lib);
    if FillInsertColumns(fields, ins, lib).Ok? {
      var names := Names(fields, ins);
      ColumnsAreFields(fields, ins, lib);
      var k :| 0 <= k < |fields| && fields[k].kind == FString;
      assert GoodField(fields[k]);
      assert fields[k].name in names;
      var j :| 0 <= j < |names| && names[j] == fields[k].name;
      assert ColumnValid(fields, names, ins.rows.value, j, lib);
      FieldNamedUnique(fields, k);
      EmptyColumnExact(fields[k]);
    }
  }

  /** `CREATE TABLE t (id BIGINT PRIMARY KEY, v VECTOR(2), n TEXT)`. */
  function TextTable(): Table {
    Table("t", false, Some(TableSpec(
      [ColumnDef("id", "bigint", SqlInt64, None, false, KeyPrimary, false),
       ColumnDef("v", "vector", SqlOther, Some("2"), false, KeyNone, false),
       ColumnDef("n", "text", SqlText, None, false, KeyNone, false)], false, false)))
  }

  function TextFields(): seq<SchemaField> {
    [SchemaField("id", FInt64, true, false, map[]),
     SchemaField("v", FFloatVector, false, false, map["dim" := "2"]),
     SchemaField("n", FString, false, false, map[])]
  }

  lemma DifferentLength(a: string, b: string)
    requires |a| != |b|
    ensures !EqualFold(a, b)
  {
    assert |ToLower(a)| != |ToLower(b)|;
  }

  lemma DifferentStart(a: string, b: string)
    requires a != "" && b != "" && Lower(a[0]) != Lower(b[0])
    ensures !EqualFold(a, b)
  {
    assert ToLower(a)[0] == Lower(a[0]) && ToLower(b)[0] == Lower(b[0]);
  }

  lemma TextColumns()
    ensures var cs := TextTable().spec.value.columns; FieldsOf(cs) == Ok(TextFields())
  {
    hide EqualFold, ParseInt;
    var cs := TextTable().spec.value.columns;
    DifferentStart("text", "bool");
    DifferentStart("text", "json");
    DifferentLength("text", "boolean");
    DifferentLength("bigint", "bool");
    DifferentLength("bigint", "boolean");
    DifferentLength("bigint", "json");
    DifferentLength("vector", "bool");
    DifferentLength("vector", "boolean");
    DifferentLength("vector", "json");
    ParsePrintedInt(2, 64);
    assert IntText(2) == NatText(2) == [Digit(2)] == "2";
    var fs := TextFields();
    assert FieldOf(cs[0]) == Ok(fs[0]) && FieldOf(cs[1]) == Ok(fs[1]) && FieldOf(cs[2]) == Ok(fs[2]);
    assert [fs[0]] + ([fs[1]] + ([fs[2]] + [])) == fs;
    FieldsUnfold(cs, 0);
    FieldsUnfold(cs, 1);
    FieldsUnfold(cs, 2);
    NoFields(cs[3..]);
    assert cs[0..] == cs;
  }

  lemma TextGood()
    ensures GoodSchema(TextFields())
  {
    hide ParseInt;
    var fields := TextFields();
    ParsePrintedInt(2, 64);
    assert IntText(2) == NatText(2) == [Digit(2)] == "2";
    Idents.WordRun("id");
    Idents.WordRun("v");
    Idents.WordRun("n");
    assert "_distance"[0] == '_';
    assert IsOnlyKey(fields, 0);
    assert fields[1].kind == FFloatVector;
    assert "id"[0] != "v"[0] && "id"[0] != "n"[0] && "v"[0] != "n"[0];
  }

  /** There are such collections: the code accepts this table, and no INSERT into
      it afterwards. */
  lemma TextTableAccepted(ins: Insert, lib: DataLib)
    ensures SchemaOf(TextTable()) == Ok(TextFields()) && HasText(TextFields())
    ensures FillInsertColumns(TextFields(), ins, lib).Err?
  {
    hide FillInsertColumns, FieldsOf;
    TextColumns();
    var fields := TextFields();
    assert fields[2].kind == FString;
    assert GoodSchema(fields) by { TextGood(); }
    SchemaExact(TextTable().spec.value.columns);
    TextBlocksInserts(fields, ins, lib);
  }

  lemma {:induction false} InsertableNamesExact(fields: seq<SchemaField>, n: string)
    ensures n in InsertableNames(fields) <==> exists k :: 0 <= k < |fields| && !fields[k].autoId && fields[k].name == n
  {
    if fields != [] {
      InsertableNamesExact(fields[1..], n);
      if n in InsertableNames(fields[1..]) {
        var k :| 0 <= k < |fields[1..]| && !fields[1..][k].autoId && fields[1..][k].name == n;
        assert fields[k + 1].name == n;
      }
      if k :| 0 <= k < |fields| && !fields[k].autoId && fields[k].name == n {
        if k > 0 { assert fields[1..][k - 1].name == n; }
      }
    }
  }

  lemma {:induction false} InsertableNamesDistinct(fields: seq<SchemaField>)
    requires UniqueNames(fields)
    ensures Distinct(InsertableNames(fields))
  {
    if fields != [] {
      InsertableNamesDistinct(fields[1..]);
      InsertableNamesExact(fields[1..], fields[0].name);
      assert forall k :: 0 <= k < |fields[1..]| ==> fields[1..][k] == fields[k + 1];
    }
  }

  /** Into an accepted schema without TEXT columns, an INSERT with no column list
      fails only on its rows (their number, width or cells) or for replacing rows
      under an auto-ID. */
  lemma AcceptedSchemaInserts(fields: seq<SchemaField>, ins: Insert, lib: DataLib)
    requires GoodSchema(fields) && !HasText(fields) && ins.columns == []
    ensures (FillInsertColumns(fields, ins, lib).Ok?
             <==> && ins.rows.Some? && |ins.rows.value| > 0
                  && (ins.replace ==> !HasAutoId(fields))
                  && RowsFit(fields, InsertableNames(fields), ins.rows.value, lib))
  {
    hide FillInsertColumns, EmptyColumn, FieldNamed, HasVector, IsOnlyKey, GoodField, FieldValue, InsertableNames, Distinct,
      Ragged, ColumnValid, Missing, RowsFit;
    InsertTransposes(fields, ins, lib);
    InsertableNamesDistinct(fields);
    NoneMissing(fields);
    if ins.rows.Some? { FitExact(fields, InsertableNames(fields), ins.rows.value, lib); }
  }

  /** Every row has one value per field, and each is a value of its field. */
  predicate RowsFit(fields: seq<SchemaField>, names: seq<string>, rows: seq<seq<Expr>>, lib: DataLib) {
    && (forall i :: 0 <= i < |rows| ==> |rows[i]| == |names|)
    && forall i, j :: 0 <= i < |rows| && 0 <= j < |names| ==> Fits(fields, names[j], rows, i, j, lib)
  }

  predicate Fits(fields: seq<SchemaField>, name: string, rows: seq<seq<Expr>>, i: nat, j: nat, lib: DataLib) {
    && i < |rows| && j < |rows[i]| && FieldNamed(fields, name).Some?
    && FieldValue(FieldNamed(fields, name).value, rows[i][j], lib).Ok?
  }

  lemma NoneMissing(fields: seq<SchemaField>)
    ensures !Missing(fields, InsertableNames(fields))
  {
    forall k | 0 <= k < |fields| && !fields[k].autoId ensures fields[k].name in InsertableNames(fields) {
      InsertableNamesExact(fields, fields[k].name);
    }
  }

  lemma FitExact(fields: seq<SchemaField>, names: seq<string>, rows: seq<seq<Expr>>, lib: DataLib)
    requires GoodSchema(fields) && !HasText(fields) && names == InsertableNames(fields)
    ensures (RowsFit(fields, names, rows, lib)
             <==> !Ragged(rows, |names|) && forall j :: 0 <= j < |names| ==> ColumnValid(fields, names, rows, j, lib))
  {
    hide FieldNamed, EmptyColumn, FieldValue, HasVector, IsOnlyKey, GoodField;
    forall j | 0 <= j < |names|
      ensures Suppliable(fields, names[j]) && EmptyColumn(FieldNamed(fields, names[j]).value).Ok?
    {
      assert names[j] in names;
      InsertableNamesExact(fields, names[j]);
      var k :| 0 <= k < |fields| && !fields[k].autoId && fields[k].name == names[j];
      FieldNamedUnique(fields, k);
      assert GoodField(fields[k]);
      EmptyColumnExact(fields[k]);
    }
    if !Ragged(rows, |names|) {
      if forall j :: 0 <= j < |names| ==> ColumnValid(fields, names, rows, j, lib) {
        forall i, j | 0 <= i < |rows| && 0 <= j < |names| ensures Fits(fields, names[j], rows, i, j, lib) {
          assert ColumnValid(fields, names, rows, j, lib);
        }
      }
      if RowsFit(fields, names, rows, lib) {
        forall j | 0 <= j < |names| ensures ColumnValid(fields, names, rows, j, lib) {
          assert Suppliable(fields, names[j]);
          var f := FieldNamed(fields, names[j]).value;
          forall i | 0 <= i < |rows| ensures j < |rows[i]| && FieldValue(f, rows[i][j], lib).Ok? {
            assert Fits(fields, names[j], rows, i, j, lib);
          }
        }
      }
    }
  }
}
