/** `parameterOIDs`: inferring the types of a PostgreSQL statement's parameters.
    Placeholders are bound to recognizable strings, the text is parsed, and the
    places where those strings turn up decide their types. */
module ParameterOids {
  import opened Prelude
  import opened Literals
  import opened Lexer
  import opened Binder
  import opened SqlAst
  import opened Results
  import opened Wire

  // ---------------------------------------------------------------- sentinels

  const PREFIX: string := "__milvus_param_"
  const SUFFIX: string := "__"

  function Sentinel(n: nat): string {
    PREFIX + NatText(n) + SUFFIX
  }

  function Sentinels(count: nat): (args: seq<Arg>)
    ensures |args| == count && forall k :: 0 <= k < count ==> args[k] == StrArg(Sentinel(k + 1))
  {
    seq(count, k requires 0 <= k < count => StrArg(Sentinel(k + 1)))
  }

  /** The parameter a literal's text names, if it has the sentinel shape. */
  function SentinelIndex(text: string): Option<int> {
    if !HasPrefix(text, PREFIX) || !HasSuffix(text, SUFFIX) then None
    else
      var rest := text[|PREFIX|..];
      ParseInt(if HasSuffix(rest, SUFFIX) then rest[..|rest| - |SUFFIX|] else rest, 64)
  }

  lemma SentinelNamesItself(n: nat)
    requires n < 0x1_0000
    ensures SentinelIndex(Sentinel(n)) == Some(n)
  {
    hide ParseInt, NatText;
    var s, d := Sentinel(n), NatText(n);
    assert s[|PREFIX|..] == d + SUFFIX;
    assert (d + SUFFIX)[..|d + SUFFIX| - |SUFFIX|] == d && (d + SUFFIX)[|d|..] == SUFFIX;
    assert s[|s| - |SUFFIX|..] == SUFFIX;
    ParsePrintedInt(n, 64);
  }

  // ------------------------------------------------------------- the statement

  /** What the walk over a parsed statement meets, in its order. */
  datatype Visit =
    | CompareVisit(left: Expr, right: Expr)
    | LimitVisit(rowcount: Expr, offset: Option<Expr>)

  /** The columns and VALUES rows of an INSERT (`rows` is absent for INSERT ... SELECT). */
  datatype InsertShape = InsertShape(columns: seq<string>, rows: Option<seq<seq<Expr>>>)

  datatype Statement = Statement(table: string, visits: seq<Visit>, insert: Option<InsertShape>)

  predicate NeedsSchema(s: Statement) {
    s.table != "" && s.table != "dual"
  }

  function FieldOid(fields: seq<SchemaField>, name: string): (oid: nat)
    ensures oid != 0
  {
    match FieldNamed(fields, name) case None => OID_TEXT case Some(f) => PgOid(WireType(f.kind))
  }

  /** A place in the statement with the type it suggests. */
  datatype Place = Place(expr: Expr, oid: nat)

  function PlacesOf(es: seq<Expr>, oid: nat): (ps: seq<Place>)
    ensures |ps| == |es| && forall k :: 0 <= k < |es| ==> ps[k] == Place(es[k], oid)
  {
    seq(|es|, k requires 0 <= k < |es| => Place(es[k], oid))
  }

  function VisitPlaces(v: Visit, fields: seq<SchemaField>): seq<Place> {
    match v
    case CompareVisit(l, r) =>
      (if l.Column? then
         [Place(r, FieldOid(fields, l.name))]
         + (if r.Tuple? then PlacesOf(r.items, FieldOid(fields, l.name)) else [])
       else [])
      + (if r.Column? then [Place(l, FieldOid(fields, r.name))] else [])
    case LimitVisit(n, offset) =>
      [Place(n, OID_INT8)] + (if offset.Some? then [Place(offset.value, OID_INT8)] else [])
  }

  function AllVisitPlaces(vs: seq<Visit>, fields: seq<SchemaField>): seq<Place> {
    if vs == [] then [] else VisitPlaces(vs[0], fields) + AllVisitPlaces(vs[1..], fields)
  }

  function InsertNames(i: InsertShape, fields: seq<SchemaField>): seq<string> {
    if |i.columns| == 0 then InsertableNames(fields) else i.columns
  }

  function RowPlaces(row: seq<Expr>, names: seq<string>, fields: seq<SchemaField>): (ps: seq<Place>)
    ensures |ps| <= |row|
  {
    var n := if |row| <= |names| then |row| else |names|;
    seq(n, j requires 0 <= j < n => Place(row[j], FieldOid(fields, names[j])))
  }

  function RowsPlaces(rows: seq<seq<Expr>>, names: seq<string>, fields: seq<SchemaField>): seq<Place> {
    if rows == [] then [] else RowPlaces(rows[0], names, fields) + RowsPlaces(rows[1..], names, fields)
  }

  /** Every place with a suggested type, in the order it is looked at: first the
      predicates and limits, then the VALUES rows. */
  function Places(s: Statement, fields: seq<SchemaField>): seq<Place> {
    AllVisitPlaces(s.visits, fields)
    + (if s.insert.Some? && s.insert.value.rows.Some? && NeedsSchema(s) then
         RowsPlaces(s.insert.value.rows.value, InsertNames(s.insert.value, fields), fields)
       else [])
  }

  // ----------------------------------------------------------------- inference

  /** The parameter a place is the occurrence of, if its type is still open. */
  predicate Sets(p: Place, oids: seq<nat>, i: nat) {
    p.expr.Literal? && SentinelIndex(p.expr.text) == Some(i + 1) && i < |oids| && oids[i] == 0
  }

  function SetPlace(oids: seq<nat>, p: Place): (r: seq<nat>)
    ensures |r| == |oids|
    ensures forall i: nat :: i < |oids| ==> r[i] == if Sets(p, oids, i) then p.oid else oids[i]
  {
    if !p.expr.Literal? then oids
    else match SentinelIndex(p.expr.text)
      case None => oids
      case Some(n) => if 0 < n <= |oids| && oids[n - 1] == 0 then oids[n - 1 := p.oid] else oids
  }

  function SetAll(oids: seq<nat>, ps: seq<Place>): (r: seq<nat>)
    ensures |r| == |oids|
    decreases |ps|
  {
    if ps == [] then oids else SetAll(SetPlace(oids, ps[0]), ps[1..])
  }

  function Default(oids: seq<nat>): (r: seq<nat>)
    ensures |r| == |oids|
    ensures forall i :: 0 <= i < |oids| ==> r[i] == if oids[i] == 0 then OID_TEXT else oids[i]
  {
    seq(|oids|, i requires 0 <= i < |oids| => if oids[i] == 0 then OID_TEXT else oids[i])
  }

  /** `stmt` is what the SQL parser makes of the normalized text, `schema` what
      the upstream answers if it is asked. */
  function Infer(q: string, oids: seq<nat>, stmt: Option<Statement>, schema: Result<seq<SchemaField>>): (r: Result<seq<nat>>)
    ensures r.Ok? ==> |r.value| == |oids|
  {
    if |oids| == 0 then Ok(oids)
    else match BindSql(q, Postgres, Sentinels(|oids|), false)
      case Err(e) => Err(e)
      case Ok(_) =>
        match stmt
        case None => Ok(Default(oids))
        case Some(s) =>
          if NeedsSchema(s) && schema.Err? then Err(schema.reason)
          else
            var fields := if NeedsSchema(s) then schema.value else [];
            Ok(Default(SetAll(oids, Places(s, fields))))
  }

  /** Whether inference asks the upstream for a schema. */
  predicate AsksSchema(q: string, oids: seq<nat>, stmt: Option<Statement>) {
    |oids| > 0 && BindSql(q, Postgres, Sentinels(|oids|), false).Ok? && stmt.Some? && NeedsSchema(stmt.value)
  }

  lemma {:induction false} SetAllAppend(oids: seq<nat>, a: seq<Place>, b: seq<Place>)
    ensures SetAll(oids, a + b) == SetAll(SetAll(oids, a), b)
    decreases |a|
  {
    hide SetPlace;
    if a == [] {
      assert a + b == b;
    } else {
      AppendTail(a, b);
      SetAllAppend(SetPlace(oids, a[0]), a[1..], b);
    }
  }

  // The code writes the slice in place.

  method Set(e: Expr, oid: nat, oids: array<nat>)
    modifies oids
    ensures oids[..] == SetPlace(old(oids[..]), Place(e, oid))
  {
    hide ParseInt;
    if e.Literal? {
      var n := SentinelIndex(e.text);
      if n.Some? && n.value > 0 && n.value <= oids.Length && oids[n.value - 1] == 0 {
        oids[n.value - 1] := oid;
      }
    }
  }

  method SetEach(es: seq<Expr>, oid: nat, oids: array<nat>)
    modifies oids
    ensures oids[..] == SetAll(old(oids[..]), PlacesOf(es, oid))
  {
    hide SetPlace;
    ghost var ps := PlacesOf(es, oid);
    assert ps[0..] == ps;
    for k := 0 to |es|
      invariant SetAll(old(oids[..]), ps) == SetAll(oids[..], ps[k..])
    {
      assert ps[k..][0] == Place(es[k], oid) && ps[k..][1..] == ps[k + 1..];
      Set(es[k], oid, oids);
    }
  }

  method SetVisit(v: Visit, fields: seq<SchemaField>, oids: array<nat>)
    modifies oids
    ensures oids[..] == SetAll(old(oids[..]), VisitPlaces(v, fields))
  {
    hide SetPlace, FieldNamed;
    ghost var start := oids[..];
    match v
    case CompareVisit(l, r) =>
      ghost var first: seq<Place>, second: seq<Place> := [], [];
      if l.Column? {
        var oid := FieldOid(fields, l.name);
        Set(r, oid, oids);
        first := [Place(r, oid)];
        assert SetAll(start, first) == oids[..];
        if r.Tuple? {
          SetAllAppend(start, first, PlacesOf(r.items, oid));
          SetEach(r.items, oid, oids);
          first := first + PlacesOf(r.items, oid);
        } else {
          assert first + [] == first;
        }
      }
      assert SetAll(start, first) == oids[..];
      if r.Column? {
        second := [Place(l, FieldOid(fields, r.name))];
        SetAllAppend(start, first, second);
        ghost var middle := oids[..];
        Set(l, FieldOid(fields, r.name), oids);
        assert SetAll(middle, second) == oids[..];
      } else {
        assert first + second == first;
      }
      assert VisitPlaces(v, fields) == first + second;
    case LimitVisit(n, offset) =>
      Set(n, OID_INT8, oids);
      assert SetAll(start, [Place(n, OID_INT8)]) == oids[..];
      if offset.Some? {
        SetAllAppend(start, [Place(n, OID_INT8)], [Place(offset.value, OID_INT8)]);
        ghost var middle := oids[..];
        Set(offset.value, OID_INT8, oids);
        assert SetAll(middle, [Place(offset.value, OID_INT8)]) == oids[..];
      } else {
        assert [Place(n, OID_INT8)] + [] == [Place(n, OID_INT8)];
      }
  }

  method SetRow(row: seq<Expr>, names: seq<string>, fields: seq<SchemaField>, oids: array<nat>)
    modifies oids
    ensures oids[..] == SetAll(old(oids[..]), RowPlaces(row, names, fields))
  {
    hide SetPlace, FieldNamed;
    ghost var ps := RowPlaces(row, names, fields);
    assert ps[0..] == ps;
    for j := 0 to |row|
      invariant SetAll(old(oids[..]), ps) == SetAll(oids[..], if j <= |ps| then ps[j..] else [])
    {
      if j < |names| {
        assert ps[j..][0] == ps[j] && ps[j..][1..] == ps[j + 1..];
        Set(row[j], FieldOid(fields, names[j]), oids);
      }
    }
  }

  method SetVisits(visits: seq<Visit>, fields: seq<SchemaField>, oids: array<nat>)
    modifies oids
    ensures oids[..] == SetAll(old(oids[..]), AllVisitPlaces(visits, fields))
  {
    hide SetAll, SetPlace, VisitPlaces;
    assert visits[0..] == visits;
    for k := 0 to |visits|
      invariant SetAll(old(oids[..]), AllVisitPlaces(visits, fields)) == SetAll(oids[..], AllVisitPlaces(visits[k..], fields))
    {
      assert visits[k..][1..] == visits[k + 1..];
      SetAllAppend(oids[..], VisitPlaces(visits[k], fields), AllVisitPlaces(visits[k + 1..], fields));
      SetVisit(visits[k], fields, oids);
    }
    SetNothing(oids[..]);
  }

  lemma SetNothing(oids: seq<nat>)
    ensures SetAll(oids, []) == oids
  {
  }

  method SetRows(rows: seq<seq<Expr>>, names: seq<string>, fields: seq<SchemaField>, oids: array<nat>)
    modifies oids
    ensures oids[..] == SetAll(old(oids[..]), RowsPlaces(rows, names, fields))
  {
    hide SetAll, SetPlace, RowPlaces;
    assert rows[0..] == rows;
    for k := 0 to |rows|
      invariant SetAll(old(oids[..]), RowsPlaces(rows, names, fields)) == SetAll(oids[..], RowsPlaces(rows[k..], names, fields))
    {
      assert rows[k..][1..] == rows[k + 1..];
      SetAllAppend(oids[..], RowPlaces(rows[k], names, fields), RowsPlaces(rows[k + 1..], names, fields));
      SetRow(rows[k], names, fields, oids);
    }
    SetNothing(oids[..]);
  }

  method SetDefaults(oids: array<nat>)
    modifies oids
    ensures oids[..] == Default(old(oids[..]))
  {
    for i := 0 to oids.Length
      invariant forall k :: 0 <= k < oids.Length ==>
        oids[k] == if k < i && old(oids[k]) == 0 then OID_TEXT else old(oids[k])
    {
      if oids[i] == 0 {
        oids[i] := OID_TEXT;
      }
    }
  }

  method ParameterOids(q: string, oids: array<nat>, stmt: Option<Statement>, schema: Result<seq<SchemaField>>)
    returns (failure: Option<string>, asked: bool)
    modifies oids
    ensures asked == AsksSchema(q, old(oids[..]), stmt)
    ensures match Infer(q, old(oids[..]), stmt, schema)
            case Err(e) => failure == Some(e)
            case Ok(r) => failure == None && oids[..] == r
  {
    hide BindSql, SetAll, AllVisitPlaces, RowsPlaces, Default, Sentinel, InsertableNames;
    ghost var given := oids[..];
    asked := false;
    if oids.Length == 0 {
      return None, asked;
    }
    var args := new Arg[oids.Length](i => NullArg);
    for i := 0 to args.Length
      invariant oids[..] == given
      invariant forall k :: 0 <= k < i ==> args[k] == StrArg(Sentinel(k + 1))
    {
      args[i] := StrArg(Sentinel(i + 1));
    }
    assert args[..] == Sentinels(oids.Length);
    var bound := BindSql(q, Postgres, args[..], false);
    if bound.Err? {
      return Some(bound.reason), asked;
    }
    if stmt.Some? {
      var s := stmt.value;
      var fields := [];
      if NeedsSchema(s) {
        asked := true;
        if schema.Err? {
          return Some(schema.reason), asked;
        }
        fields := schema.value;
      }
      ghost var visited := AllVisitPlaces(s.visits, fields);
      SetVisits(s.visits, fields, oids);
      if s.insert.Some? && NeedsSchema(s) && s.insert.value.rows.Some? {
        var rows, names := s.insert.value.rows.value, InsertNames(s.insert.value, fields);
        SetAllAppend(given, visited, RowsPlaces(rows, names, fields));
        SetRows(rows, names, fields, oids);
      } else {
        assert visited + [] == visited;
      }
    }
    SetDefaults(oids);
    return None, asked;
  }

  // --------------------------------------------------------------- properties

  /** Where a literal in the parsed statement came from: a placeholder of the
      query, or the query's own text. */
  datatype Origin = Placeholder(index: nat) | Given(expr: Expr)

  function Filled(o: Origin): Expr {
    match o case Placeholder(i) => Literal(StrVal, Sentinel(i)) case Given(e) => e
  }

  /** The places whose expression is parameter `n`'s literal, and the first. */
  predicate Occurrence(p: Place, n: int) {
    p.expr.Literal? && SentinelIndex(p.expr.text) == Some(n)
  }

  function FirstOid(ps: seq<Place>, n: int): nat {
    if ps == [] then 0
    else if Occurrence(ps[0], n) then ps[0].oid
    else FirstOid(ps[1..], n)
  }

  lemma {:induction false} SetAllFirst(oids: seq<nat>, ps: seq<Place>, i: nat)
    requires i < |oids| && forall k :: 0 <= k < |ps| ==> ps[k].oid != 0
    ensures SetAll(oids, ps)[i] == if oids[i] != 0 then oids[i] else FirstOid(ps, i + 1)
    decreases |ps|
  {
    hide SentinelIndex;
    if ps != [] {
      SetAllFirst(SetPlace(oids, ps[0]), ps[1..], i);
    }
  }

  lemma {:induction false} RowsPlacesTyped(rows: seq<seq<Expr>>, names: seq<string>, fields: seq<SchemaField>)
    ensures forall k :: 0 <= k < |RowsPlaces(rows, names, fields)| ==> RowsPlaces(rows, names, fields)[k].oid != 0
  {
    hide FieldOid;
    if rows != [] { RowsPlacesTyped(rows[1..], names, fields); }
  }

  lemma {:induction false} VisitPlacesTyped(vs: seq<Visit>, fields: seq<SchemaField>)
    ensures forall k :: 0 <= k < |AllVisitPlaces(vs, fields)| ==> AllVisitPlaces(vs, fields)[k].oid != 0
  {
    hide FieldOid;
    if vs != [] { VisitPlacesTyped(vs[1..], fields); }
  }

  lemma PlacesTyped(s: Statement, fields: seq<SchemaField>)
    ensures forall k :: 0 <= k < |Places(s, fields)| ==> Places(s, fields)[k].oid != 0
  {
    hide FieldOid, InsertNames;
    VisitPlacesTyped(s.visits, fields);
    if s.insert.Some? && s.insert.value.rows.Some? {
      RowsPlacesTyped(s.insert.value.rows.value, InsertNames(s.insert.value, fields), fields);
    }
  }

  /** Inference only fills gaps: a type the client gave stays, and afterwards no
      parameter is left without one. */
  lemma InferFrame(q: string, oids: seq<nat>, stmt: Option<Statement>, schema: Result<seq<SchemaField>>)
    requires Infer(q, oids, stmt, schema).Ok?
    ensures var r := Infer(q, oids, stmt, schema).value;
            && (forall i :: 0 <= i < |oids| && oids[i] != 0 ==> r[i] == oids[i])
            && (forall i :: 0 <= i < |oids| ==> r[i] != 0)
  {
    hide BindSql, SetAll, Places, Sentinels;
    if stmt.Some? {
      var s := stmt.value;
      var fields := if NeedsSchema(s) && schema.Ok? then schema.value else [];
      PlacesTyped(s, fields);
      forall i | 0 <= i < |oids|
        ensures SetAll(oids, Places(s, fields))[i] == if oids[i] != 0 then oids[i] else FirstOid(Places(s, fields), i + 1)
      {
        SetAllFirst(oids, Places(s, fields), i);
      }
    }
  }

  /** The type the first use of a parameter suggests, or text if it has none. */
  function FirstUse(origins: seq<Origin>, ps: seq<Place>, n: nat): nat
    requires |origins| == |ps|
  {
    if ps == [] then OID_TEXT
    else if origins[0] == Placeholder(n) then ps[0].oid
    else FirstUse(origins[1..], ps[1..], n)
  }

  /** The parameter itself, or a literal of the query's own that looks like it. */
  predicate Names(o: Origin, n: nat) {
    o == Placeholder(n) || (o.Given? && o.expr.Literal? && SentinelIndex(o.expr.text) == Some(n))
  }

  predicate FirstNaming(origins: seq<Origin>, n: nat, k: nat) {
    k < |origins| && Names(origins[k], n) && forall j :: 0 <= j < k ==> !Names(origins[j], n)
  }

  /** No literal of the query takes the parameter's place: if one that looks like
      it stands before its first use, the first such literal has the same type. */
  predicate NotForged(origins: seq<Origin>, ps: seq<Place>, n: nat)
    requires |origins| == |ps|
  {
    forall k :: 0 <= k < |ps| && FirstNaming(origins, n, k) && origins[k].Given? ==>
                  ps[k].oid == FirstUse(origins, ps, n)
  }

  /** Every place holds a parameter's sentinel or an expression of the query. */
  predicate Originates(origins: seq<Origin>, ps: seq<Place>) {
    && |origins| == |ps|
    && (forall k :: 0 <= k < |ps| ==> ps[k].expr == Filled(origins[k]))
    && forall k :: 0 <= k < |ps| && origins[k].Placeholder? ==> origins[k].index < 0x1_0000
  }

  lemma NamesOccur(origins: seq<Origin>, ps: seq<Place>, n: nat, k: nat)
    requires Originates(origins, ps) && k < |ps|
    ensures Names(origins[k], n) <==> Occurrence(ps[k], n)
  {
    hide SentinelIndex, Sentinel;
    if origins[k].Placeholder? { SentinelNamesItself(origins[k].index); }
  }

  lemma {:induction false} FirstOidAt(ps: seq<Place>, n: nat, k: nat)
    requires k <= |ps| && forall j :: 0 <= j < k ==> !Occurrence(ps[j], n)
    requires k < |ps| ==> Occurrence(ps[k], n)
    ensures FirstOid(ps, n) == if k < |ps| then ps[k].oid else 0
  {
    hide Occurrence;
    if k > 0 {
      forall j | 0 <= j < k - 1 ensures !Occurrence(ps[1..][j], n) {
        assert ps[1..][j] == ps[j + 1];
      }
      FirstOidAt(ps[1..], n, k - 1);
    }
  }

  lemma {:induction false} FirstUseAt(origins: seq<Origin>, ps: seq<Place>, n: nat, k: nat)
    requires |origins| == |ps| && k <= |ps| && forall j :: 0 <= j < k ==> origins[j] != Placeholder(n)
    requires k < |ps| ==> origins[k] == Placeholder(n)
    ensures FirstUse(origins, ps, n) == if k < |ps| then ps[k].oid else OID_TEXT
  {
    if k > 0 { FirstUseAt(origins[1..], ps[1..], n, k - 1); }
  }

  lemma {:induction false} FirstNamingExists(origins: seq<Origin>, n: nat, m: nat) returns (k: nat)
    requires m <= |origins|
    ensures k <= m
    ensures k < m ==> FirstNaming(origins, n, k)
    ensures k == m ==> forall j :: 0 <= j < m ==> !Names(origins[j], n)
  {
    hide Names;
    if m == 0 {
      k := 0;
    } else {
      k := FirstNamingExists(origins, n, m - 1);
      if k == m - 1 && !Names(origins[m - 1], n) { k := m; }
    }
  }

  /** Which type an open parameter ends up with: that of the first place where
      something looks like it. */
  lemma FirstNamingDecides(q: string, oids: seq<nat>, s: Statement, schema: Result<seq<SchemaField>>, i: nat)
    requires i < |oids| && oids[i] == 0 && Infer(q, oids, Some(s), schema).Ok?
    ensures var ps := Places(s, if NeedsSchema(s) && schema.Ok? then schema.value else []);
            var first := FirstOid(ps, i + 1);
            Infer(q, oids, Some(s), schema).value[i] == if first == 0 then OID_TEXT else first
  {
    hide BindSql, SetAll, Places, Sentinels, FirstOid;
    var fields := if NeedsSchema(s) && schema.Ok? then schema.value else [];
    PlacesTyped(s, fields);
    SetAllFirst(oids, Places(s, fields), i);
  }

  /** An open parameter gets the type of its first use, in walk order, or text if
      it is never used where a type is suggested, if and only if no literal of
      the query takes its place. */
  lemma InferredFromFirstUse(q: string, oids: seq<nat>, s: Statement, schema: Result<seq<SchemaField>>,
                             origins: seq<Origin>, i: nat)
    requires i < |oids| && oids[i] == 0 && Infer(q, oids, Some(s), schema).Ok?
    requires Originates(origins, Places(s, if NeedsSchema(s) && schema.Ok? then schema.value else []))
    ensures var ps := Places(s, if NeedsSchema(s) && schema.Ok? then schema.value else []);
            (Infer(q, oids, Some(s), schema).value[i] == FirstUse(origins, ps, i + 1) <==> NotForged(origins, ps, i + 1))
  {
    hide Infer, Places, FirstUse, FirstOid, Filled, Occurrence, Names, Originates;
    var fields := if NeedsSchema(s) && schema.Ok? then schema.value else [];
    var ps := Places(s, fields);
    PlacesTyped(s, fields);
    FirstNamingDecides(q, oids, s, schema, i);
    assert |origins| == |ps| by { SameLength(origins, ps); }
    var k := FirstNamingExists(origins, i + 1, |ps|);
    forall j | 0 <= j < |ps| ensures Names(origins[j], i + 1) <==> Occurrence(ps[j], i + 1) {
      NamesOccur(origins, ps, i + 1, j);
    }
    FirstOidAt(ps, i + 1, k);
    forall j | 0 <= j < |ps| && !Names(origins[j], i + 1) ensures origins[j] != Placeholder(i + 1) {
      NotNamed(origins[j], i + 1);
    }
    if k == |ps| {
      FirstUseAt(origins, ps, i + 1, k);
    } else if origins[k].Placeholder? {
      NamedBySelf(origins[k], i + 1);
      FirstUseAt(origins, ps, i + 1, k);
      OnlyFirst(origins, i + 1, k);
    } else {
      OnlyFirst(origins, i + 1, k);
    }
  }

  lemma SameLength(origins: seq<Origin>, ps: seq<Place>)
    requires Originates(origins, ps)
    ensures |origins| == |ps|
  {
  }

  lemma NotNamed(o: Origin, n: nat)
    requires !Names(o, n)
    ensures o != Placeholder(n)
  {
  }

  lemma NamedBySelf(o: Origin, n: nat)
    requires Names(o, n) && o.Placeholder?
    ensures o == Placeholder(n)
  {
  }

  lemma OnlyFirst(origins: seq<Origin>, n: nat, k: nat)
    requires FirstNaming(origins, n, k)
    ensures forall j :: 0 <= j < |origins| && FirstNaming(origins, n, j) ==> j == k
  {
    hide Names;
  }

  // ------------------------------------------------------ what a use suggests

  /** The type of a column as a client knows it: 16 for truth values, 20 for integers,
      701 for floats, 25 for anything else and for unknown columns. */
  predicate ColumnOid(oid: nat, fields: seq<SchemaField>, name: string) {
    match FieldNamed(fields, name)
    case None => oid == 25
    case Some(f) =>
      if f.kind == FBool then oid == 16
      else if f.kind in {FInt8, FInt16, FInt32, FInt64} then oid == 20
      else if f.kind in {FFloat, FDouble} then oid == 701
      else oid == 25
  }

  lemma ColumnOids(fields: seq<SchemaField>, name: string)
    ensures forall oid: nat :: ColumnOid(oid, fields, name) <==> oid == FieldOid(fields, name)
  {
  }

  /** A use of `e` suggests a type: that of the column it is compared with, alone or
      in a list, or bigint in LIMIT and OFFSET. */
  predicate Suggests(v: Visit, e: Expr, oid: nat, fields: seq<SchemaField>) {
    match v
    case CompareVisit(l, r) =>
      || (l.Column? && ColumnOid(oid, fields, l.name) && (e == r || (r.Tuple? && e in r.items)))
      || (r.Column? && ColumnOid(oid, fields, r.name) && e == l)
    case LimitVisit(n, offset) => oid == 20 && (e == n || offset == Some(e))
  }

  /** The places of a visit are exactly its uses. */
  lemma VisitsSuggest(v: Visit, e: Expr, oid: nat, fields: seq<SchemaField>)
    ensures Place(e, oid) in VisitPlaces(v, fields) <==> Suggests(v, e, oid, fields)
  {
    hide FieldOid, ColumnOid;
    var p := Place(e, oid);
    match v
    case CompareVisit(l, r) =>
      if l.Column? { ColumnOids(fields, l.name); }
      if r.Column? { ColumnOids(fields, r.name); }
      if l.Column? && r.Tuple? {
        var o := FieldOid(fields, l.name);
        PlaceAmong(r.items, o, e, oid);
        InBoth([Place(r, o)], PlacesOf(r.items, o), p);
      }
    case LimitVisit(n, offset) =>
  }

  lemma PlaceAmong(es: seq<Expr>, o: nat, e: Expr, oid: nat)
    ensures Place(e, oid) in PlacesOf(es, o) <==> e in es && oid == o
  {
    var ps := PlacesOf(es, o);
    if e in es && oid == o {
      var k :| 0 <= k < |es| && es[k] == e;
      assert ps[k] == Place(e, oid);
    }
    if Place(e, oid) in ps {
      var k :| 0 <= k < |ps| && ps[k] == Place(e, oid);
      assert es[k] == e;
    }
  }

  lemma InBoth<T>(a: seq<T>, b: seq<T>, x: T)
    ensures x in a + b <==> x in a || x in b
  {
  }

  /** The values of a row are places of the columns they are inserted into. */
  lemma RowsSuggest(row: seq<Expr>, names: seq<string>, fields: seq<SchemaField>, j: nat)
    requires j < |row| && j < |names|
    ensures j < |RowPlaces(row, names, fields)| && RowPlaces(row, names, fields)[j].expr == row[j]
    ensures ColumnOid(RowPlaces(row, names, fields)[j].oid, fields, names[j])
  {
    hide FieldOid, ColumnOid;
    ColumnOids(fields, names[j]);
  }

  /** The places of an INSERT into a collection: every value, under the column it is
      inserted into, listed or, if none are, among those that take values. */
  lemma InsertsSuggest(s: Statement, fields: seq<SchemaField>, k: nat, j: nat)
    requires s.table != "" && s.table != "dual" && s.insert.Some? && s.insert.value.rows.Some?
    requires k < |s.insert.value.rows.value| && j < |s.insert.value.rows.value[k]|
    requires var names := if s.insert.value.columns == [] then InsertableNames(fields) else s.insert.value.columns;
             j < |names|
    ensures var names := if s.insert.value.columns == [] then InsertableNames(fields) else s.insert.value.columns;
            exists oid: nat ::
              ColumnOid(oid, fields, names[j]) && Place(s.insert.value.rows.value[k][j], oid) in Places(s, fields)
  {
    hide FieldOid, ColumnOid, RowPlaces, InsertableNames, AllVisitPlaces;
    var names := InsertNames(s.insert.value, fields);
    var rows := s.insert.value.rows.value;
    RowsSuggest(rows[k], names, fields, j);
    var p := RowPlaces(rows[k], names, fields)[j];
    RowAmong(rows, names, fields, k, p);
    InBoth(AllVisitPlaces(s.visits, fields), RowsPlaces(rows, names, fields), p);
    assert p == Place(rows[k][j], p.oid);
  }

  lemma {:induction false} RowAmong(rows: seq<seq<Expr>>, names: seq<string>, fields: seq<SchemaField>, k: nat, p: Place)
    requires k < |rows| && p in RowPlaces(rows[k], names, fields)
    ensures p in RowsPlaces(rows, names, fields)
  {
    hide RowPlaces;
    InBoth(RowPlaces(rows[0], names, fields), RowsPlaces(rows[1..], names, fields), p);
    if k > 0 { RowAmong(rows[1..], names, fields, k - 1, p); }
  }

  /** A parameter used once gets the type of its use: in a LIMIT bigint, in a
      comparison its column's. */
  lemma OneUseDecides(q: string, oids: seq<nat>, table: string, v: Visit, oid: nat, schema: Result<seq<SchemaField>>, i: nat)
    requires i < |oids| < 0x1_0000 && oids[i] == 0 && oid != 0
    requires Infer(q, oids, Some(Statement(table, [v], None)), schema).Ok?
    requires v == LimitVisit(Literal(StrVal, Sentinel(i + 1)), None)
             || (v.CompareVisit? && v.left.Column? && v.right == Literal(StrVal, Sentinel(i + 1)))
    requires Suggests(v, Literal(StrVal, Sentinel(i + 1)), oid,
                      if table != "" && table != "dual" && schema.Ok? then schema.value else [])
    ensures Infer(q, oids, Some(Statement(table, [v], None)), schema).value[i] == oid
  {
    hide Infer, FieldOid, Sentinel, SentinelIndex, ColumnOid;
    var s := Statement(table, [v], None);
    var fields := if NeedsSchema(s) && schema.Ok? then schema.value else [];
    SentinelNamesItself(i + 1);
    FirstNamingDecides(q, oids, s, schema, i);
    VisitsSuggest(v, Literal(StrVal, Sentinel(i + 1)), oid, fields);
    OneVisit(v, fields);
    assert Places(s, fields) == VisitPlaces(v, fields) + [];
    assert |VisitPlaces(v, fields)| == 1;
    assert VisitPlaces(v, fields) == [Place(Literal(StrVal, Sentinel(i + 1)), oid)];
  }

  lemma OneVisit(v: Visit, fields: seq<SchemaField>)
    ensures AllVisitPlaces([v], fields) == VisitPlaces(v, fields)
  {
    hide VisitPlaces;
    assert [v][1..] == [] && AllVisitPlaces([], fields) == [];
    assert VisitPlaces(v, fields) + [] == VisitPlaces(v, fields);
  }

  // ---------------------------------------------------- a literal in the way

  /** A query whose own text compares `id` with what looks like its parameter. */
  function ForgedQuery(): string {
    "delete from t where id='" + (Sentinel(1) + "' and n=$1")
  }

  /** What the parser makes of it, and where its literals came from. */
  function ForgedStatement(): Statement {
    var s := Literal(StrVal, Sentinel(1));
    Statement("t", [CompareVisit(Column("", "id"), s), CompareVisit(Column("", "n"), s)], None)
  }

  function ForgedOrigins(): seq<Origin> {
    [Given(Literal(StrVal, Sentinel(1))), Placeholder(1)]
  }

  lemma {:induction false} DoubleNothing(s: string, quote: char)
    requires quote !in s
    ensures Literals.Double(s, quote) == s
  {
    if s != "" {
      DoubleNothing(s[1..], quote);
      HeadTail(s);
    }
  }

  lemma SentinelUnquoted(n: nat)
    ensures '\'' !in Sentinel(n)
  {
    hide NatText;
    forall k | 0 <= k < |Sentinel(n)| ensures Sentinel(n)[k] != '\'' {
      if |PREFIX| <= k < |PREFIX| + |NatText(n)| {
        assert Sentinel(n)[k] == NatText(n)[k - |PREFIX|];
      }
    }
  }

  lemma ForgedQuoted(args: seq<Arg>, tail: string)
    requires tail != "" && tail[0] != '\''
    ensures var s := "'" + (Sentinel(1) + ("'" + tail));
            BindStep(s, Postgres, args, false, 0) == Ok(Piece(StringLiteral(Sentinel(1)), |Sentinel(1)| + 2, 0))
            && s[|Sentinel(1)| + 2..] == tail
  {
    hide ScanQuoted, Escape, Sentinel, Literals.Double;
    var s := "'" + (Sentinel(1) + ("'" + tail));
    SentinelUnquoted(1);
    DoubleNothing(Sentinel(1), '\'');
    DoubledDecodes(Sentinel(1), '\'', "'" + tail);
    assert s[1..] == Sentinel(1) + ("'" + tail);
  }

  lemma ForgedParam(args: seq<Arg>)
    requires |args| == 1 && Supported(args[0])
    ensures Bind("$1", Postgres, args, false, 0) == Prepend(SqlLiteral(args[0]).value, Ok(BoundSql("", 1)))
  {
    hide Bind, SqlLiteral, ParseInt;
    assert "$1"[1..] == "1" && "$1"[2..] == "" && "1"[1..] == "" && "1"[..1] == "1";
    ParsePrintedInt(1, 64);
    assert NatText(1) == [Digit(1)] && Digit(1) == '1' && IntText(1) == NatText(1);
    assert DigitsLength("") == 0 && DigitsLength("1") == 1;
    assert Substitute(1, args, false) == SqlLiteral(args[0]) && SqlLiteral(args[0]).Ok? by { SupportedPrints(args[0]); }
    BindUnfold("$1", Postgres, args, false, 0);
    BindUnfold("", Postgres, args, false, 1);
  }

  lemma SupportedPrints(a: Arg)
    requires Supported(a)
    ensures SqlLiteral(a).Ok?
  {
  }

  lemma ForgedBinds()
    ensures BindSql(ForgedQuery(), Postgres, Sentinels(1), false).Ok?
  {
    hide Bind, BindStep, Sentinel, SqlLiteral, ScanQuoted;
    var args := Sentinels(1);
    var s := "'" + (Sentinel(1) + ("'" + " and n=$1"));
    assert ForgedQuery() == "delete from t where id=" + s by { ForgedShape(); }
    BindPlain("delete from t where id=", s, Postgres, args, false, 0);
    ForgedQuoted(args, " and n=$1");
    BindUnfold(s, Postgres, args, false, 0);
    assert " and n=$1" == " and n=" + "$1";
    BindPlain(" and n=", "$1", Postgres, args, false, 0);
    ForgedParam(args);
  }

  lemma ForgedShape()
    ensures ForgedQuery() == "delete from t where id=" + ("'" + (Sentinel(1) + ("'" + " and n=$1")))
  {
    hide Sentinel;
    assert "delete from t where id='" == "delete from t where id=" + "'";
    assert "' and n=$1" == "'" + " and n=$1";
    Assoc("delete from t where id=", "'", Sentinel(1) + ("'" + " and n=$1"));
  }

  lemma ForgedPlaces(fields: seq<SchemaField>)
    ensures Places(ForgedStatement(), fields)
         == [Place(Literal(StrVal, Sentinel(1)), FieldOid(fields, "id")), Place(Literal(StrVal, Sentinel(1)), FieldOid(fields, "n"))]
  {
    hide Sentinel, FieldOid;
    var s := ForgedStatement();
    assert s.visits[1..] == [s.visits[1]] && s.visits[1..][1..] == [];
    assert AllVisitPlaces([], fields) == [];
    assert AllVisitPlaces(s.visits[1..], fields) == VisitPlaces(s.visits[1], fields);
  }

  /** Without the condition the property fails: here the parameter is compared with
      a text column only, and is typed as a bigint, the type of the column its
      look-alike is compared with. */
  lemma ForgedSentinel(fields: seq<SchemaField>)
    requires FieldNamed(fields, "id").Some? && WireType(FieldNamed(fields, "id").value.kind) == LongLong
    requires FieldNamed(fields, "n").Some? && WireType(FieldNamed(fields, "n").value.kind) == VarString
    ensures var ps := Places(ForgedStatement(), fields);
            && Originates(ForgedOrigins(), ps) && !NotForged(ForgedOrigins(), ps, 1)
            && FirstUse(ForgedOrigins(), ps, 1) == OID_TEXT
    ensures Infer(ForgedQuery(), [0], Some(ForgedStatement()), Ok(fields)) == Ok([OID_INT8])
  {
    hide BindSql, SentinelIndex, Sentinel, Sentinels, FieldNamed, Places, FirstOid, ForgedQuery;
    var s, ps := ForgedStatement(), Places(ForgedStatement(), fields);
    var origins := ForgedOrigins();
    ForgedBinds();
    ForgedPlaces(fields);
    SentinelNamesItself(1);
    assert FieldOid(fields, "id") == OID_INT8 && FieldOid(fields, "n") == OID_TEXT;
    assert FirstNaming(origins, 1, 0) && origins[0].Given?;
    FirstUseAt(origins, ps, 1, 1);
    FirstOidAt(ps, 1, 0);
    FirstNamingDecides(ForgedQuery(), [0], s, Ok(fields), 0);
    var r := Infer(ForgedQuery(), [0], Some(s), Ok(fields));
    assert r.value == [r.value[0]];
  }
}
