/** Values, result sets and Milvus schemas, as the session passes them around. */
module Results {
  import opened Prelude

  /** A cell of a result: the Go types the proxy can meet. Floats are opaque bit
      patterns, lists their printed elements. */
  datatype Value =
    | Nil
    | VBool(b: bool)
    | VInt(n: int)
    | VFloat(bits: nat)
    | VText(s: string)
    | VBytes(s: string)
    | VList(elements: string)
    | VOther

  /** The wire types the code distinguishes. */
  datatype ColumnType = Tiny | LongLong | Double | VarString | NullType

  datatype ResultColumn = ResultColumn(name: string, kind: ColumnType)

  datatype ResultSet = ResultSet(columns: seq<ResultColumn>, rows: seq<seq<Value>>)

  datatype QueryResult = QueryResult(resultset: Option<ResultSet>, affected: nat, insertId: nat)

  const DONE: QueryResult := QueryResult(None, 0, 0)

  /** Every row has one value per column; `buildResultset` checks it. */
  predicate Rectangular(r: ResultSet) {
    forall k :: 0 <= k < |r.rows| ==> |r.rows[k]| == |r.columns|
  }

  predicate WellShaped(r: QueryResult) {
    r.resultset.Some? ==> Rectangular(r.resultset.value)
  }

  datatype FieldType =
    | FBool | FInt8 | FInt16 | FInt32 | FInt64 | FFloat | FDouble
    | FVarChar | FString | FJson | FFloatVector | FOtherType

  datatype SchemaField = SchemaField(
    name: string, kind: FieldType, primaryKey: bool, autoId: bool, params: map<string, string>)

  predicate UniqueNames(fields: seq<SchemaField>) {
    forall i, j :: 0 <= i < j < |fields| ==> fields[i].name != fields[j].name
  }

  /** The map the code builds from a schema: the last field of a name wins. */
  function FieldNamed(fields: seq<SchemaField>, name: string): (r: Option<SchemaField>)
    ensures r.Some? ==> r.value in fields && r.value.name == name
    ensures r.None? ==> forall k :: 0 <= k < |fields| ==> fields[k].name != name
  {
    if fields == [] then None
    else
      var last := fields[|fields| - 1];
      if last.name == name then Some(last) else FieldNamed(fields[..|fields| - 1], name)
  }

  lemma {:induction false} FieldNamedUnique(fields: seq<SchemaField>, k: nat)
    requires k < |fields| && UniqueNames(fields)
    ensures FieldNamed(fields, fields[k].name) == Some(fields[k])
  {
    if k < |fields| - 1 {
      assert fields[k].name != fields[|fields| - 1].name;
      FieldNamedUnique(fields[..|fields| - 1], k);
    }
  }

  /** The columns of an INSERT that lists none: every field but auto-IDs. */
  function InsertableNames(fields: seq<SchemaField>): seq<string> {
    if fields == [] then []
    else (if fields[0].autoId then [] else [fields[0].name]) + InsertableNames(fields[1..])
  }

  /** `resultField`: the wire type of a Milvus field. */
  function WireType(kind: FieldType): ColumnType {
    match kind
    case FBool => Tiny
    case FInt8 => LongLong
    case FInt16 => LongLong
    case FInt32 => LongLong
    case FInt64 => LongLong
    case FFloat => Double
    case FDouble => Double
    case _ => VarString
  }
}
