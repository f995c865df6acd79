/** Values end to end: from a client's parameter, through the SQL text it is
    bound into, to the cell that is stored. */
module RoundTrips {
  import opened Prelude
  import opened Literals
  import opened Lexer
  import opened BinderTokens
  import opened SqlAst
  import opened Results
  import opened InsertColumns
  import Ddl
  import Wire

  /** How the SQL parser reads the tokens of one literal. It folds the sign of an
      integer into the literal or keeps it as an operator; both are covered. */
  function ReadLiteral(ts: seq<Token>, folded: bool): Option<Expr> {
    if |ts| == 1 && ts[0].Str? && ts[0].quote == '\'' then Some(Literal(StrVal, ts[0].value))
    else if |ts| == 1 && ts[0].Word? then
      if ts[0].text == "true" then Some(BoolLit(true))
      else if ts[0].text == "false" then Some(BoolLit(false))
      else if AllDigits(ts[0].text) then Some(Literal(IntVal, ts[0].text))
      else None
    else if |ts| == 2 && ts[0] == Punct('-') && ts[1].Word? && AllDigits(ts[1].text) then
      Some(if folded then Literal(IntVal, "-" + ts[1].text) else Unary("-", Literal(IntVal, ts[1].text)))
    else None
  }

  /** The cell an argument ends up as, in a column for `f`. */
  function Stored(a: Arg, f: SchemaField, folded: bool, lib: DataLib): Result<Cell> {
    match SqlLiteral(a)
    case Err(m) => Err(m)
    case Ok(text) =>
      var ts := BoundTokens(text);
      if ts.None? then Err("syntax error")
      else
        var e := ReadLiteral(ts.value, folded);
        if e.None? then Err("syntax error") else FieldValue(f, e.value, lib)
  }

  lemma LiteralAlone(a: Arg)
    requires Supported(a) && Printable(a)
    ensures BoundTokens(SqlLiteral(a).value) == Some(LiteralTokens(a))
  {
    hide *;
    LiteralExists(a);
    LiteralLexes(a, "");
    LexesAlone(SqlLiteral(a).value, LiteralTokens(a));
  }

  lemma LexesAlone(x: string, ts: seq<Token>)
    requires ts != [] && Lexes(x, ts, "")
    ensures BoundTokens(x) == Some(ts)
  {
    hide Lex, Next;
    assert x + "" == x;
    assert ts + [] == ts;
    assert BoundTokens("") == Some([]) by { EmptyTokens(); }
  }

  lemma EmptyTokens()
    ensures BoundTokens("") == Some([])
  {
  }

  lemma IntegerReads(n: int, folded: bool)
    ensures ReadLiteral(LiteralTokens(IntArg(n)), folded).Some?
    ensures LiteralText(ReadLiteral(LiteralTokens(IntArg(n)), folded).value) == Ok(IntText(n))
    ensures !ReadLiteral(LiteralTokens(IntArg(n)), folded).value.Func?
  {
    var digits := NatText(if n < 0 then -n else n);
    assert IsDigit(digits[0]);
    assert digits != "true" && digits != "false" by { assert "true"[0] == 't' && "false"[0] == 'f'; }
  }

  /** An integer argument is stored as itself exactly when it fits the column. */
  lemma IntegersStored(n: int, f: SchemaField, folded: bool, lib: DataLib)
    requires IsInt(f.kind)
    ensures Stored(IntArg(n), f, folded, lib).Ok? <==> FitsBits(n, IntBits(f.kind))
    ensures FitsBits(n, IntBits(f.kind)) ==> Stored(IntArg(n), f, folded, lib) == Ok(CellInt(n, IntBits(f.kind)))
  {
    hide BoundTokens, LiteralTokens, ReadLiteral, LiteralText, ParseInt, IntText, NatText;
    LiteralAlone(IntArg(n));
    IntegerReads(n, folded);
    ParsePrintedInt(n, IntBits(f.kind));
  }

  /** Every int64 a client sends, as text or as eight bytes, is what is stored. */
  lemma BigintEndToEnd(n: int, format: int, f: SchemaField, folded: bool, floats: Wire.FloatLib, lib: DataLib)
    requires FitsBits(n, 64) && f.kind == FInt64
    ensures Wire.PgValue(VInt(n), Wire.OID_INT8, format, floats).Ok?
    ensures var sent := Wire.PgValue(VInt(n), Wire.OID_INT8, format, floats).value;
            var arg := Wire.PgParameter(sent, Wire.OID_INT8, format, floats);
            arg.Ok? && Stored(arg.value, f, folded, lib) == Ok(CellInt(n, 64))
  {
    hide Wire.PgValue, Wire.PgParameter, Stored;
    Wire.BigintRoundTrip(n, format, floats);
    IntegersStored(n, f, folded, lib);
  }

  /** Every string is stored byte for byte exactly when it is within the
      column's length; no quote, backslash or NUL in it can change it. */
  lemma StringsStored(s: string, f: SchemaField, folded: bool, lib: DataLib)
    requires f.kind == FVarChar
    ensures (Stored(StrArg(s), f, folded, lib).Ok?
             <==> ParamInt(f, "max_length").Some? && |s| <= ParamInt(f, "max_length").value)
    ensures Stored(StrArg(s), f, folded, lib).Ok? ==> Stored(StrArg(s), f, folded, lib) == Ok(CellText(s))
  {
    hide BoundTokens, ParseInt, Escape;
    LiteralAlone(StrArg(s));
  }

  /** JSON documents and vectors sent as strings reach their validators intact. */
  lemma DocumentsStored(s: string, f: SchemaField, folded: bool, lib: DataLib)
    ensures f.kind == FJson ==>
              Stored(StrArg(s), f, folded, lib) == if lib.jsonValid(s) then Ok(CellJson(s)) else Err("invalid JSON")
    ensures f.kind == FFloatVector ==> Stored(StrArg(s), f, folded, lib) == VectorValue(f, s, lib)
  {
    hide BoundTokens, ParseInt, Escape, VectorValue;
    LiteralAlone(StrArg(s));
  }

  /** Truth values, sent in either format, are stored as themselves. */
  lemma BooleansEndToEnd(b: bool, format: int, f: SchemaField, folded: bool, floats: Wire.FloatLib, lib: DataLib)
    requires f.kind == FBool
    ensures Wire.PgValue(VBool(b), Wire.OID_BOOL, format, floats).Ok?
    ensures var sent := Wire.PgValue(VBool(b), Wire.OID_BOOL, format, floats).value;
            var arg := Wire.PgParameter(sent, Wire.OID_BOOL, format, floats);
            arg.Ok? && Stored(arg.value, f, folded, lib) == Ok(CellBool(b))
  {
    hide Wire.PgValue, Wire.PgParameter, BoundTokens;
    Wire.BoolRoundTrip(b, format, floats);
    LiteralAlone(BoolArg(b));
    assert "true" != "false" by { assert "true"[0] == 't' && "false"[0] == 'f'; }
  }

  /** Every string a client sends, in either format, is what is stored if it is
      within the column's length, and is refused if it is not. */
  lemma TextEndToEnd(s: string, format: int, f: SchemaField, folded: bool, floats: Wire.FloatLib, lib: DataLib)
    requires f.kind == FVarChar
    ensures Wire.PgValue(VText(s), 25, format, floats) == Ok(Some(s))
    ensures forall oid :: oid in {25, 1043, 114} ==>
              var arg := Wire.PgParameter(Some(s), oid, format, floats);
              && arg.Ok?
              && (Stored(arg.value, f, folded, lib).Ok?
                  <==> ParamInt(f, "max_length").Some? && |s| <= ParamInt(f, "max_length").value)
              && (Stored(arg.value, f, folded, lib).Ok? ==> Stored(arg.value, f, folded, lib) == Ok(CellText(s)))
  {
    hide Wire.PgParameter, Stored, ParamInt;
    Wire.StringsRead(s, 25, format, floats);
    Wire.StringsRead(s, 1043, format, floats);
    Wire.StringsRead(s, 114, format, floats);
    StringsStored(s, f, folded, lib);
  }

  /** `v` is the vector of a JSON text, all of its elements numbers. */
  predicate VectorText(s: string, v: seq<nat>, lib: DataLib) {
    lib.rawElements(s).Some? && "null" !in lib.rawElements(s).value && lib.vector(s) == Some(v)
  }

  /** A vector is stored exactly if its elements are numbers and as many as the
      field's dimension, written as a string or as `json_vector` of one. */
  lemma VectorsStored(s: string, v: seq<nat>, f: SchemaField, folded: bool, name: string, lib: DataLib)
    requires f.kind == FFloatVector && ParamInt(f, "dim").Some?
    ensures (Stored(StrArg(s), f, folded, lib) == Ok(CellVector(v))
             <==> VectorText(s, v, lib) && |v| == ParamInt(f, "dim").value)
    ensures Stored(StrArg(s), f, folded, lib).Ok? ==> Stored(StrArg(s), f, folded, lib).value.CellVector?
    ensures (if EqualFold(name, "json_vector")
             then FieldValue(f, Func(name, [Some(Literal(StrVal, s))]), lib) == Stored(StrArg(s), f, folded, lib)
             else FieldValue(f, Func(name, [Some(Literal(StrVal, s))]), lib).Err?)
  {
    hide BoundTokens, ParseInt, Escape, EqualFold;
    LiteralAlone(StrArg(s));
  }

  // ------------------------------------------------- declared columns and values

  /** A column whose type is not truth values, JSON or vectors. */
  predicate Simple(c: Ddl.ColumnDef) {
    && !EqualFold(c.typeName, "bool") && !EqualFold(c.typeName, "boolean")
    && !(c.typeName == "tinyint" && c.length == Some("1"))
    && !EqualFold(c.typeName, "json") && c.typeName != "vector"
  }

  /** The bits of a declared integer type; dates and times are integers too. */
  function DeclaredBits(t: Ddl.SqlType): nat {
    match t
    case SqlInt8 => 8
    case SqlInt16 => 16
    case SqlInt32 => 32
    case SqlDate => 32
    case SqlInt64 => 64
    case SqlDatetime => 64
    case _ => 0
  }

  /** A declared integer column stores exactly the integers of its width. */
  lemma DeclaredIntegers(c: Ddl.ColumnDef, n: int, folded: bool, lib: DataLib)
    requires Simple(c) && Ddl.FieldOf(c).Ok? && DeclaredBits(c.sqlType) != 0
    ensures var bits, r := DeclaredBits(c.sqlType), Stored(IntArg(n), Ddl.FieldOf(c).value, folded, lib);
            (r.Ok? <==> FitsBits(n, bits)) && (r.Ok? ==> r == Ok(CellInt(n, bits)))
  {
    hide Stored, EqualFold, ParseInt;
    IntegersStored(n, Ddl.FieldOf(c).value, folded, lib);
  }

  /** A declared VARCHAR(n) stores exactly the strings of at most n bytes, and a
      VECTOR(n) the vectors of n numbers. */
  lemma DeclaredLengths(c: Ddl.ColumnDef, s: string, v: seq<nat>, folded: bool, lib: DataLib)
    requires Ddl.FieldOf(c).Ok?
    ensures var r := Stored(StrArg(s), Ddl.FieldOf(c).value, folded, lib);
            && (Simple(c) && c.sqlType == Ddl.SqlVarchar ==>
                  && c.length.Some? && ParseInt(c.length.value, 64).Some?
                  && r == if |s| <= ParseInt(c.length.value, 64).value then Ok(CellText(s)) else Err("string exceeds max_length"))
            && (c.typeName == "vector" ==>
                  && c.length.Some? && ParseInt(c.length.value, 64).Some?
                  && (r == Ok(CellVector(v)) <==> VectorText(s, v, lib) && |v| == ParseInt(c.length.value, 64).value))
  {
    hide EqualFold, ParseInt, BoundTokens, Escape, VectorText;
    var f := Ddl.FieldOf(c).value;
    LiteralAlone(StrArg(s));
    if c.typeName == "vector" {
      NotOther();
      VectorsStored(s, v, f, folded, "", lib);
    }
  }

  lemma NotOther()
    ensures !EqualFold("vector", "bool") && !EqualFold("vector", "boolean") && !EqualFold("vector", "json")
  {
    Ddl.DifferentLength("vector", "bool");
    Ddl.DifferentLength("vector", "boolean");
    Ddl.DifferentLength("vector", "json");
  }

  predicate Truth(c: Ddl.ColumnDef) {
    || EqualFold(c.typeName, "bool") || EqualFold(c.typeName, "boolean")
    || (c.typeName == "tinyint" && c.length == Some("1"))
  }

  /** Truth values, JSON and floats, by their declared types. */
  lemma DeclaredOthers(c: Ddl.ColumnDef, b: bool, s: string, folded: bool, lib: DataLib)
    requires Ddl.FieldOf(c).Ok?
    ensures var f := Ddl.FieldOf(c).value;
            && (Truth(c) ==> Stored(BoolArg(b), f, folded, lib) == Ok(CellBool(b)))
            && (EqualFold(c.typeName, "json") ==>
                  Stored(StrArg(s), f, folded, lib) == if lib.jsonValid(s) then Ok(CellJson(s)) else Err("invalid JSON"))
            && (Simple(c) && (c.sqlType == Ddl.SqlFloat32 || c.sqlType == Ddl.SqlFloat64) ==>
                  var bits := if c.sqlType == Ddl.SqlFloat32 then 32 else 64;
                  match lib.parseFloat(s, bits)
                  case None => FieldValue(f, Literal(FloatVal, s), lib).Err?
                  case Some(x) =>
                    FieldValue(f, Literal(FloatVal, s), lib)
                    == if lib.finite(x) then Ok(CellFloat(x, bits)) else Err("non-finite float"))
  {
    hide EqualFold, ParseInt, BoundTokens, Escape;
    LiteralAlone(StrArg(s));
    LiteralAlone(BoolArg(b));
    if EqualFold(c.typeName, "json") { JsonIsNotBool(c.typeName); }
    assert "true" != "false" by { assert "true"[0] == 't' && "false"[0] == 'f'; }
  }

  lemma JsonIsNotBool(name: string)
    requires EqualFold(name, "json")
    ensures !EqualFold(name, "bool") && !EqualFold(name, "boolean") && name != "tinyint"
  {
    assert ToLower(name) == ToLower("json");
    assert ToLower("json")[0] == 'j' && ToLower("bool")[0] == 'b' && ToLower("boolean")[0] == 'b';
    assert |ToLower("tinyint")| == 7;
  }
}
