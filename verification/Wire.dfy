/** PostgreSQL wire formats: `pgValue`, `pgParameter`, format codes, column
    descriptions and command tags. A `char` is one byte. */
module Wire {
  import opened Prelude
  import opened Literals
  import opened Results

  const OID_BOOL: nat := 16
  const OID_INT8: nat := 20
  const OID_INT2: nat := 21
  const OID_INT4: nat := 23
  const OID_TEXT: nat := 25
  const OID_JSON: nat := 114
  const OID_FLOAT4: nat := 700
  const OID_FLOAT8: nat := 701
  const OID_VARCHAR: nat := 1043

  /** Floating-point printing and parsing, left to `strconv` and `fmt`. */
  datatype FloatLib = FloatLib(
    format: nat -> string, sprint: nat -> string, sprint32: nat -> string, parse: string -> Option<nat>)

  // ------------------------------------------------------------- format codes

  function FormatAt(f: seq<int>, i: nat): int {
    if |f| == 0 then 0
    else if |f| == 1 then f[0]
    else if i >= |f| then 0
    else f[i]
  }

  predicate ValidFormats(f: seq<int>, n: nat) {
    (|f| == 0 || |f| == 1 || |f| == n) && forall k :: 0 <= k < |f| ==> f[k] == 0 || f[k] == 1
  }

  method ValidFormatsLoop(f: seq<int>, n: nat) returns (ok: bool)
    ensures ok == ValidFormats(f, n)
  {
    if |f| != 0 && |f| != 1 && |f| != n {
      return false;
    }
    for k := 0 to |f|
      invariant forall j :: 0 <= j < k ==> f[j] == 0 || f[j] == 1
    {
      if f[k] != 0 && f[k] != 1 {
        return false;
      }
    }
    return true;
  }

  // -------------------------------------------------------- big-endian integers

  function BigEndian(data: string): nat {
    if data == "" then 0 else 256 * BigEndian(data[..|data| - 1]) + data[|data| - 1] as nat
  }

  function Pow256(width: nat): nat {
    if width == 0 then 1 else 256 * Pow256(width - 1)
  }

  /** The low `width` bytes of `n`. */
  function PutBytes(n: nat, width: nat): (s: string)
    ensures |s| == width
  {
    if width == 0 then "" else PutBytes(n / 256, width - 1) + [(n % 256) as char]
  }

  lemma {:induction false} PutThenRead(n: nat, width: nat)
    requires n < Pow256(width)
    ensures BigEndian(PutBytes(n, width)) == n
    decreases width
  {
    if width > 0 {
      var s := PutBytes(n, width);
      PutThenRead(n / 256, width - 1);
      assert s[..|s| - 1] == PutBytes(n / 256, width - 1);
    }
  }

  /** Two's complement in `width` bytes. */
  function Unsigned(n: int, width: nat): nat
    requires -(Pow256(width) as int) <= n < Pow256(width)
  {
    if n < 0 then n + Pow256(width) else n
  }

  function Signed(n: nat, width: nat): int {
    if 2 * n < Pow256(width) then n else n - Pow256(width)
  }

  lemma Pow256Values()
    ensures Pow256(2) == 0x1_0000 && Pow256(4) == 0x1_0000_0000 && Pow256(8) == 0x1_0000_0000_0000_0000
  {
    assert Pow256(4) == 256 * (256 * Pow256(2));
    assert Pow256(6) == 256 * (256 * Pow256(4));
    assert Pow256(8) == 256 * (256 * Pow256(6));
  }

  lemma SignedRoundTrip(n: int, width: nat)
    requires -(Pow256(width) as int) <= 2 * n < Pow256(width)
    ensures Signed(BigEndian(PutBytes(Unsigned(n, width), width)), width) == n
  {
    PutThenRead(Unsigned(n, width), width);
  }

  // ------------------------------------------------------------------- values

  function FormatValue(v: Value, lib: FloatLib): Result<string> {
    match v
    case Nil => Ok("NULL")
    case VBool(b) => Ok(if b then "true" else "false")
    case VInt(n) => Ok(IntText(n))
    case VFloat(bits) => Ok(lib.format(bits))
    case VText(s) => Ok(s)
    case VBytes(s) => Ok(s)
    case VList(elements) => Ok("[" + elements + "]")
    case VOther => Err("invalid type")
  }

  /** `fmt.Sprint`; lists print in brackets. */
  function Sprint(v: Value, lib: FloatLib): string {
    match v
    case Nil => "<nil>"
    case VBool(b) => if b then "true" else "false"
    case VInt(n) => IntText(n)
    case VFloat(bits) => lib.sprint(bits)
    case VText(s) => s
    case VBytes(s) => "[" + s + "]"
    case VList(elements) => "[" + elements + "]"
    case VOther => "{}"
  }

  /** `None` is the SQL null. */
  function PgValue(v: Value, oid: nat, format: int, lib: FloatLib): Result<Option<string>> {
    if v.Nil? then Ok(None)
    else if format == 0 then Present(FormatValue(v, lib))
    else if oid == OID_BOOL then
      if v.VBool? then Ok(Some([(if v.b then 1 else 0) as char])) else Err("expected bool")
    else if oid == OID_INT8 then
      match ParseInt(Sprint(v, lib), 64)
      case None => Err("invalid syntax")
      case Some(n) =>
        Pow256Values();
        Ok(Some(PutBytes(Unsigned(n, 8), 8)))
    else if oid == OID_FLOAT8 then
      match lib.parse(Sprint(v, lib))
      case None => Err("invalid syntax")
      case Some(bits) => Ok(Some(PutBytes(bits, 8)))
    else Present(FormatValue(v, lib))
  }

  function Present(r: Result<string>): Result<Option<string>> {
    match r case Err(e) => Err(e) case Ok(s) => Ok(Some(s))
  }

  /** `strconv.ParseBool`. */
  function ParseBool(s: string): Option<bool> {
    if s in {"1", "t", "T", "TRUE", "true", "True"} then Some(true)
    else if s in {"0", "f", "F", "FALSE", "false", "False"} then Some(false)
    else None
  }

  function PgParameter(data: Option<string>, oid: nat, format: int, lib: FloatLib): (r: Result<Arg>)
    ensures r.Ok? ==> Supported(r.value)
    ensures data.None? ==> r == Ok(NullArg)
  {
    match data
    case None => Ok(NullArg)
    case Some(s) => if format == 0 then TextParameter(s, oid, lib) else BinaryParameter(s, oid, lib)
  }

  function TextParameter(s: string, oid: nat, lib: FloatLib): (r: Result<Arg>)
    ensures r.Ok? ==> Supported(r.value)
  {
    if oid == OID_BOOL then
      match ParseBool(s) case None => Err("invalid syntax") case Some(b) => Ok(BoolArg(b))
    else if oid == OID_INT8 || oid == OID_INT2 || oid == OID_INT4 then
      match ParseInt(s, 64) case None => Err("invalid syntax") case Some(n) => Ok(IntArg(n))
    else if oid == OID_FLOAT4 || oid == OID_FLOAT8 then
      match lib.parse(s) case None => Err("invalid syntax") case Some(bits) => Ok(FloatArg(lib.sprint(bits)))
    else Ok(StrArg(s))
  }

  function BinaryParameter(s: string, oid: nat, lib: FloatLib): (r: Result<Arg>)
    ensures r.Ok? ==> Supported(r.value)
  {
    if oid == OID_BOOL && |s| == 1 && s[0] as int <= 1 then Ok(BoolArg(s[0] as int == 1))
    else if oid == OID_INT8 && |s| == 8 then Ok(IntArg(Signed(BigEndian(s), 8)))
    else if oid == OID_INT4 && |s| == 4 then Ok(IntArg(Signed(BigEndian(s), 4)))
    else if oid == OID_INT2 && |s| == 2 then Ok(IntArg(Signed(BigEndian(s), 2)))
    else if oid == OID_FLOAT8 && |s| == 8 then Ok(FloatArg(lib.sprint(BigEndian(s))))
    else if oid == OID_FLOAT4 && |s| == 4 then Ok(FloatArg(lib.sprint32(BigEndian(s))))
    else if oid == OID_TEXT || oid == OID_VARCHAR || oid == OID_JSON then Ok(StrArg(s))
    else Err("unsupported binary parameter OID or invalid length")
  }

  /** Every int64 sent to a client as a bigint, in either format, comes back as
      the same parameter. */
  lemma BigintRoundTrip(n: int, format: int, lib: FloatLib)
    requires FitsBits(n, 64)
    ensures PgValue(VInt(n), OID_INT8, format, lib).Ok?
    ensures PgParameter(PgValue(VInt(n), OID_INT8, format, lib).value, OID_INT8, format, lib) == Ok(IntArg(n))
  {
    hide PutBytes, BigEndian, ParseInt, Pow256;
    ParsePrintedInt(n, 64);
    Pow256Values();
    SignedRoundTrip(n, 8);
  }

  /** The binary encodings of smaller integers are read with their own width. */
  lemma SmallIntegersRead(n: int, width: nat, lib: FloatLib)
    requires (width == 2 && FitsBits(n, 16)) || (width == 4 && FitsBits(n, 32))
    requires -(Pow256(width) as int) <= n < Pow256(width)
    ensures PgParameter(Some(PutBytes(Unsigned(n, width), width)), if width == 2 then OID_INT2 else OID_INT4, 1, lib)
         == Ok(IntArg(n))
  {
    hide PutBytes, BigEndian, Pow256;
    Pow256Values();
    SignedRoundTrip(n, width);
  }

  /** Truth values survive both formats. */
  lemma BoolRoundTrip(b: bool, format: int, lib: FloatLib)
    ensures PgValue(VBool(b), OID_BOOL, format, lib).Ok?
    ensures PgParameter(PgValue(VBool(b), OID_BOOL, format, lib).value, OID_BOOL, format, lib) == Ok(BoolArg(b))
  {
  }

  /** Strings arrive byte for byte: as text, VARCHAR or JSON in both formats, and in
      text format under every type that is not a truth value or a number. */
  lemma StringsRead(s: string, oid: nat, format: int, lib: FloatLib)
    ensures oid == 25 || oid == 1043 || oid == 114 ==> PgParameter(Some(s), oid, format, lib) == Ok(StrArg(s))
    ensures format == 0 && oid !in {16, 20, 21, 23, 700, 701} ==> PgParameter(Some(s), oid, format, lib) == Ok(StrArg(s))
  {
    hide ParseInt, BigEndian;
  }

  /** Integers sent as text are read under every integer type; numbers and truth
      values that do not parse are refused. */
  lemma NumbersRead(s: string, oid: nat, lib: FloatLib)
    ensures oid in {20, 21, 23} ==>
              match ParseInt(s, 64)
              case None => PgParameter(Some(s), oid, 0, lib).Err?
              case Some(n) => PgParameter(Some(s), oid, 0, lib) == Ok(IntArg(n))
    ensures oid in {700, 701} ==>
              match lib.parse(s)
              case None => PgParameter(Some(s), oid, 0, lib).Err?
              case Some(bits) => PgParameter(Some(s), oid, 0, lib) == Ok(FloatArg(lib.sprint(bits)))
    ensures oid == 16 ==>
              match ParseBool(s)
              case None => PgParameter(Some(s), oid, 0, lib).Err?
              case Some(b) => PgParameter(Some(s), oid, 0, lib) == Ok(BoolArg(b))
  {
    hide ParseInt, ParseBool;
  }

  /** The byte strings a binary parameter of a type can be. */
  predicate BinaryOf(s: string, oid: nat) {
    || (oid == 16 && (s == [0 as char] || s == [1 as char]))
    || (oid in {20, 701} && |s| == 8)
    || (oid in {23, 700} && |s| == 4)
    || (oid == 21 && |s| == 2)
    || oid in {25, 1043, 114}
  }

  lemma BinaryAccepted(s: string, oid: nat, format: int, lib: FloatLib)
    requires format != 0
    ensures PgParameter(Some(s), oid, format, lib).Ok? <==> BinaryOf(s, oid)
  {
    hide BigEndian, Pow256;
    if |s| == 1 { assert s == [s[0]]; }
  }

  /** Floats in binary keep their bits. */
  lemma FloatsRead(bits: nat, format: int, lib: FloatLib)
    requires format != 0
    ensures bits < Pow256(8) ==> PgParameter(Some(PutBytes(bits, 8)), OID_FLOAT8, format, lib) == Ok(FloatArg(lib.sprint(bits)))
    ensures bits < Pow256(4) ==> PgParameter(Some(PutBytes(bits, 4)), OID_FLOAT4, format, lib) == Ok(FloatArg(lib.sprint32(bits)))
  {
    hide PutBytes, BigEndian, Pow256;
    if bits < Pow256(8) { PutThenRead(bits, 8); }
    if bits < Pow256(4) { PutThenRead(bits, 4); }
  }

  // -------------------------------------------------- descriptions and tags

  function PgOid(kind: ColumnType): (oid: nat)
    ensures oid in {OID_BOOL, OID_INT8, OID_FLOAT8, OID_TEXT}
  {
    match kind
    case Tiny => OID_BOOL
    case LongLong => OID_INT8
    case Double => OID_FLOAT8
    case _ => OID_TEXT
  }

  datatype ColumnDescription = ColumnDescription(name: string, oid: nat, size: int, format: int)

  function Describe(c: ResultColumn, format: int): ColumnDescription {
    var oid := PgOid(c.kind);
    var size := if oid == OID_BOOL then 1 else if oid == OID_INT8 || oid == OID_FLOAT8 then 8 else -1;
    ColumnDescription(c.name, oid, size, format)
  }

  function PgDescription(columns: seq<ResultColumn>, formats: seq<int>): (d: seq<ColumnDescription>)
    ensures |d| == |columns|
    ensures forall i :: 0 <= i < |columns| ==> d[i] == Describe(columns[i], FormatAt(formats, i))
  {
    seq(|columns|, i requires 0 <= i < |columns| => Describe(columns[i], FormatAt(formats, i)))
  }

  /** Binary values have exactly the size their column description announces. */
  lemma BinarySizeAnnounced(v: Value, c: ResultColumn, lib: FloatLib)
    requires PgValue(v, PgOid(c.kind), 1, lib).Ok?
    ensures var bytes, d := PgValue(v, PgOid(c.kind), 1, lib).value, Describe(c, 1);
            bytes.Some? && d.size >= 0 ==> |bytes.value| == d.size
  {
    hide PutBytes, ParseInt, Pow256;
  }

  /** `strings.Fields` on ASCII text. */
  function WordLength(s: string): (n: nat)
    ensures n <= |s|
  {
    if s != "" && !IsSpace(s[0]) then 1 + WordLength(s[1..]) else 0
  }

  function Fields(s: string): seq<string>
    decreases |s|
  {
    if s == "" then []
    else if IsSpace(s[0]) then Fields(s[1..])
    else [s[..WordLength(s)]] + Fields(s[WordLength(s)..])
  }

  function PgTag(q: string, r: QueryResult): string {
    var words := Fields(q);
    if words == [] then ""
    else if r.resultset.Some? then "SELECT " + NatText(|r.resultset.value.rows|)
    else
      var verb := ToUpper(words[0]);
      if verb == "INSERT" || verb == "UPSERT" || verb == "REPLACE" then "INSERT 0 " + NatText(r.affected)
      else if verb == "DELETE" then "DELETE " + NatText(r.affected)
      else if (verb == "CREATE" || verb == "DROP") && |words| > 1 then verb + " " + ToUpper(words[1])
      else verb
  }

  /** How a cell reads in text, and where binary falls back on it; NULL has no bytes. */
  lemma TextCells(v: Value, oid: nat, format: int, lib: FloatLib)
    requires format == 0 || oid !in {16, 20, 701}
    ensures PgValue(v, oid, format, lib)
         == match v
            case Nil => Ok(None)
            case VBool(b) => Ok(Some(if b then "true" else "false"))
            case VInt(n) => Ok(Some(IntText(n)))
            case VFloat(bits) => Ok(Some(lib.format(bits)))
            case VText(s) => Ok(Some(s))
            case VBytes(s) => Ok(Some(s))
            case VList(elements) => Ok(Some("[" + elements + "]"))
            case VOther => Err("invalid type")
  {
    hide IntText;
  }

  /** The values Milvus returns for a field of a type. */
  predicate CellOf(v: Value, kind: FieldType) {
    match kind
    case FBool => v.VBool?
    case FInt8 => v.VInt? && FitsBits(v.n, 8)
    case FInt16 => v.VInt? && FitsBits(v.n, 16)
    case FInt32 => v.VInt? && FitsBits(v.n, 32)
    case FInt64 => v.VInt? && FitsBits(v.n, 64)
    case FFloat => v.VFloat?
    case FDouble => v.VFloat?
    case FVarChar => v.VText?
    case FString => v.VText?
    case FJson => v.VBytes?
    case FFloatVector => v.VList?
    case FOtherType => false
  }

  /** The argument that stands for a cell. */
  function ArgOf(v: Value, lib: FloatLib): Arg
    requires !v.VOther?
  {
    match v
    case Nil => NullArg
    case VBool(b) => BoolArg(b)
    case VInt(n) => IntArg(n)
    case VFloat(bits) => FloatArg(lib.sprint(bits))
    case VText(s) => StrArg(s)
    case VBytes(s) => StrArg(s)
    case VList(elements) => StrArg("[" + elements + "]")
  }

  /** A float prints and parses back, both ways it is printed. */
  predicate Faithful(bits: nat, lib: FloatLib) {
    bits < Pow256(8) && lib.parse(lib.format(bits)) == Some(bits) && lib.parse(lib.sprint(bits)) == Some(bits)
  }

  /** Every cell sent under its column's announced type, in either format, comes back
      as the argument it stands for when a client sends it as a parameter. */
  lemma CellRoundTrip(v: Value, kind: FieldType, format: int, lib: FloatLib)
    requires CellOf(v, kind) && (v.VFloat? ==> Faithful(v.bits, lib))
    ensures var oid := PgOid(WireType(kind));
            && PgValue(v, oid, format, lib).Ok?
            && PgParameter(PgValue(v, oid, format, lib).value, oid, format, lib) == Ok(ArgOf(v, lib))
  {
    hide PutBytes, BigEndian, ParseInt, Pow256;
    match v
    case VInt(n) => BigintRoundTrip(n, format, lib);
    case VFloat(bits) => PutThenRead(bits, 8);
    case _ =>
  }

  /** The types and sizes announced for the columns of a schema. */
  lemma AnnouncedTypes(name: string, kind: FieldType, format: int)
    ensures var d := Describe(ResultColumn(name, WireType(kind)), format);
            && d.name == name && d.format == format
            && (kind == FBool ==> d.oid == 16 && d.size == 1)
            && (kind in {FInt8, FInt16, FInt32, FInt64} ==> d.oid == 20 && d.size == 8)
            && (kind in {FFloat, FDouble} ==> d.oid == 701 && d.size == 8)
            && (kind in {FVarChar, FString, FJson, FFloatVector, FOtherType} ==> d.oid == 25 && d.size == -1)
  {
  }

  lemma {:induction false} FirstWord(word: string, rest: string)
    requires (forall k :: 0 <= k < |word| ==> !IsSpace(word[k])) && (rest == "" || IsSpace(rest[0]))
    ensures WordLength(word + rest) == |word|
    decreases |word|
  {
    if word == "" {
      assert word + rest == rest;
    } else {
      AppendTail(word, rest);
      FirstWord(word[1..], rest);
    }
  }

  lemma FieldsOfWord(word: string, rest: string)
    requires word != "" && (forall k :: 0 <= k < |word| ==> !IsSpace(word[k])) && (rest == "" || IsSpace(rest[0]))
    ensures Fields(word + rest) == [word] + Fields(rest)
  {
    hide WordLength;
    FirstWord(word, rest);
    DropPrefix(word, rest);
    assert (word + rest)[0] == word[0];
  }

  /** The tag of a statement by its first two words: `SELECT` and the rows if it has a
      result set, else what its verb asks for. */
  lemma TagsExact(verb: string, noun: string, rest: string, r: QueryResult)
    requires verb != "" && noun != ""
    requires forall k :: 0 <= k < |verb| ==> !IsSpace(verb[k])
    requires forall k :: 0 <= k < |noun| ==> !IsSpace(noun[k])
    requires rest == "" || IsSpace(rest[0])
    ensures var tag := PgTag(verb + (" " + (noun + rest)), r);
            var v := ToUpper(verb);
            if r.resultset.Some? then tag == "SELECT " + NatText(|r.resultset.value.rows|)
            else if v == "INSERT" || v == "UPSERT" || v == "REPLACE" then tag == "INSERT 0 " + NatText(r.affected)
            else if v == "DELETE" then tag == "DELETE " + NatText(r.affected)
            else if v == "CREATE" || v == "DROP" then tag == v + " " + ToUpper(noun)
            else tag == v
  {
    hide Fields, ToUpper, NatText;
    FieldsOfWord(verb, " " + (noun + rest));
    SpaceSkipped(noun + rest);
    FieldsOfWord(noun, rest);
  }

  lemma SpaceSkipped(s: string)
    ensures Fields(" " + s) == Fields(s)
  {
    assert (" " + s)[1..] == s;
  }
}
