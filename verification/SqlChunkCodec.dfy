/**
 Columnar SQL chunks (sql_stream_chunk_inspection.ts, sql_stream_chunk_codec.ts): validation, the
 expanded size computed before any row exists, and the transposition to row objects.
 */
module SqlChunkCodec {
  import opened Options
  import opened JsonText
  import opened JsonValues

  const ROWS := U("rows")
  const COLUMNAR := U("columnar")

  datatype Column = Column(name: seq<Unit>, values: seq<Json>)

  datatype Inspection =
    | Invalid(message: string)
    | RowForm(rowCount: nat)
    | ColumnForm(rowCount: nat, columns: seq<Column>)

  // ------------------------------------------------------------------- inspection

  /** `String(v)`, as used on a column's type. */
  function JsString(v: Json): seq<Unit>
    decreases v, 1
  {
    match v
    case Null => NULL_TEXT
    case Bool(b) => if b then TRUE_TEXT else FALSE_TEXT
    case Num(n) => NumberText(n)
    case Str(s) => s
    case Arr(items) => JsJoin(items)
    case Obj(_) => U("[object Object]")
  }

  function JsJoin(items: seq<Json>): seq<Unit>
    decreases items, 0
  {
    if items == [] then []
    else (if items[0].Null? then [] else JsString(items[0])) + Separator(|items|) + JsJoin(items[1..])
  }

  predicate IsColumnType(v: Option<Json>) {
    v.Some? && JsString(v.value) in [U("int32"), U("int64"), U("float64"), U("object")]
  }

  function ReadColumn(v: Json, count: nat): Option<Column> {
    if !v.Obj? then None else
    var name, values := Lookup(v.fields, U("name")), Lookup(v.fields, U("values"));
    if name.Some? && name.value.Str? && IsColumnType(Lookup(v.fields, U("type")))
       && values.Some? && values.value.Arr? && |values.value.items| == count
    then Some(Column(name.value.s, values.value.items)) else None
  }

  /** `Map.set`: the last vector under a name wins, in the place of the first. */
  function PutColumn(columns: seq<Column>, c: Column): seq<Column> {
    if columns == [] then [c]
    else if columns[0].name == c.name then [c] + columns[1..]
    else [columns[0]] + PutColumn(columns[1..], c)
  }

  function SelectColumns(raw: seq<Json>, count: nat, selected: seq<Column>): Option<seq<Column>>
    decreases |raw|
  {
    if raw == [] then Some(selected) else
    match ReadColumn(raw[0], count)
    case None => None
    case Some(c) => SelectColumns(raw[1..], count, PutColumn(selected, c))
  }

  const ROWS_MESSAGE := "rpc:chunk rows must be an array"
  const COLUMNAR_MESSAGE := "rpc:chunk columnar must be an object"
  const SHAPE_MESSAGE := "rpc:chunk columnar row_count and columns are invalid"
  const VECTOR_MESSAGE := "rpc:chunk columnar vector is invalid"

  /** The header of a columnar body: its row count and raw columns, if both are well typed. */
  function ReadHeader(body: seq<Field>): Option<(nat, seq<Json>)> {
    var count, columns := Lookup(body, U("row_count")), Lookup(body, U("columns"));
    if count.Some? && count.value.Num? && count.value.n.SafeInt? && count.value.n.value >= 0
       && columns.Some? && columns.value.Arr?
    then Some((count.value.n.value, columns.value.items)) else None
  }

  function Inspect(chunk: seq<Field>): Inspection {
    var rows, columnar := Lookup(chunk, ROWS), Lookup(chunk, COLUMNAR);
    if rows.None? || !rows.value.Arr? then Invalid(ROWS_MESSAGE)
    else if |rows.value.items| > 0 || columnar.None? then RowForm(|rows.value.items|)
    else if !columnar.value.Obj? then Invalid(COLUMNAR_MESSAGE)
    else match ReadHeader(columnar.value.fields)
    case None => Invalid(SHAPE_MESSAGE)
    case Some((count, raw)) =>
      match SelectColumns(raw, count, [])
      case None => Invalid(VECTOR_MESSAGE)
      case Some(columns) => ColumnForm(count, columns)
  }

  method InspectChunk(chunk: seq<Field>) returns (r: Inspection)
    ensures r == Inspect(chunk)
  {
    var rows, columnar := Lookup(chunk, ROWS), Lookup(chunk, COLUMNAR);
    if rows.None? || !rows.value.Arr? { return Invalid(ROWS_MESSAGE); }
    if |rows.value.items| > 0 || columnar.None? { return RowForm(|rows.value.items|); }
    if !columnar.value.Obj? { return Invalid(COLUMNAR_MESSAGE); }
    var header := ReadHeader(columnar.value.fields);
    if header.None? { return Invalid(SHAPE_MESSAGE); }
    var (count, raw) := header.value;
    var selected: seq<Column> := [];
    for k := 0 to |raw|
      invariant SelectColumns(raw, count, []) == SelectColumns(raw[k..], count, selected)
    {
      assert raw[k..][0] == raw[k] && raw[k..][1..] == raw[k + 1..];
      var column := ReadColumn(raw[k], count);
      if column.None? { return Invalid(VECTOR_MESSAGE); }
      selected := PutColumn(selected, column.value);
    }
    return ColumnForm(count, selected);
  }

  // ------------------------------------------------- what the selected columns are

  /** Names are distinct and every vector has `count` values. */
  predicate Regular(columns: seq<Column>, count: nat) {
    && (forall a, b :: 0 <= a < b < |columns| ==> columns[a].name != columns[b].name)
    && (forall a :: 0 <= a < |columns| ==> |columns[a].values| == count)
  }

  function ColumnNamed(columns: seq<Column>, name: seq<Unit>): Option<seq<Json>> {
    if columns == [] then None
    else if columns[0].name == name then Some(columns[0].values)
    else ColumnNamed(columns[1..], name)
  }

  /** The vector that should win under a name: the one of the last raw column so named. */
  function LastNamed(raw: seq<Json>, count: nat, name: seq<Unit>): Option<seq<Json>> {
    if raw == [] then None else
    var last := ReadColumn(raw[|raw| - 1], count);
    if last.Some? && last.value.name == name then Some(last.value.values)
    else LastNamed(raw[..|raw| - 1], count, name)
  }

  lemma {:induction false} PutColumnKeeps(columns: seq<Column>, c: Column, count: nat)
    requires Regular(columns, count) && |c.values| == count
    ensures Regular(PutColumn(columns, c), count)
    ensures forall a :: 0 <= a < |PutColumn(columns, c)| ==>
              || PutColumn(columns, c)[a].name == c.name
              || exists b :: 0 <= b < |columns| && columns[b].name == PutColumn(columns, c)[a].name
  {
    if columns != [] && columns[0].name != c.name {
      PutColumnKeeps(columns[1..], c, count);
      var rest := PutColumn(columns[1..], c);
      forall a | 0 <= a < |rest|
        ensures rest[a].name != columns[0].name
      {
        if rest[a].name != c.name {
          var b :| 0 <= b < |columns[1..]| && columns[1..][b].name == rest[a].name;
          assert columns[b + 1].name == rest[a].name;
        }
      }
      assert PutColumn(columns, c) == [columns[0]] + rest;
    }
  }

  lemma {:induction false} PutColumnNamed(columns: seq<Column>, c: Column, name: seq<Unit>)
    ensures ColumnNamed(PutColumn(columns, c), name)
         == if name == c.name then Some(c.values) else ColumnNamed(columns, name)
  {
    var r := PutColumn(columns, c);
    if columns != [] {
      if columns[0].name == c.name {
        assert r[1..] == columns[1..];
      } else {
        assert r[1..] == PutColumn(columns[1..], c);
        PutColumnNamed(columns[1..], c, name);
      }
    }
  }

  lemma {:induction false} SelectRegular(raw: seq<Json>, count: nat, selected: seq<Column>)
    requires Regular(selected, count)
    ensures SelectColumns(raw, count, selected).Some? ==> Regular(SelectColumns(raw, count, selected).value, count)
    decreases |raw|
  {
    if raw != [] && ReadColumn(raw[0], count).Some? {
      PutColumnKeeps(selected, ReadColumn(raw[0], count).value, count);
      SelectRegular(raw[1..], count, PutColumn(selected, ReadColumn(raw[0], count).value));
    }
  }

  lemma {:induction false} LastNamedFront(raw: seq<Json>, count: nat, name: seq<Unit>)
    requires raw != [] && ReadColumn(raw[0], count).Some?
    ensures var c := ReadColumn(raw[0], count).value; var later := LastNamed(raw[1..], count, name);
      LastNamed(raw, count, name) == if later.Some? then later else if c.name == name then Some(c.values) else None
    decreases |raw|
  {
    if |raw| > 1 {
      var n := |raw| - 1;
      assert raw[1..][..n - 1] == raw[..n][1..] && raw[1..][n - 1] == raw[n];
      LastNamedFront(raw[..n], count, name);
    }
  }

  /** Under every name the selected vector is the last one sent. */
  lemma {:induction false} SelectedIsLast(raw: seq<Json>, count: nat, selected: seq<Column>, name: seq<Unit>)
    requires SelectColumns(raw, count, selected).Some?
    ensures var later := LastNamed(raw, count, name);
      ColumnNamed(SelectColumns(raw, count, selected).value, name)
        == if later.Some? then later else ColumnNamed(selected, name)
    decreases |raw|
  {
    if raw != [] {
      var c := ReadColumn(raw[0], count).value;
      LastNamedFront(raw, count, name);
      PutColumnNamed(selected, c, name);
      SelectedIsLast(raw[1..], count, PutColumn(selected, c), name);
    }
  }

  // -------------------------------------------------------------------- expansion

  /** Row `i` built property by property, starting from `fields`. */
  function BuildRow(columns: seq<Column>, i: nat, fields: seq<Field>): seq<Field>
    requires forall a :: 0 <= a < |columns| ==> i < |columns[a].values|
    decreases |columns|
  {
    if columns == [] then fields
    else BuildRow(columns[1..], i, Set(fields, columns[0].name, columns[0].values[i]))
  }

  function ExpandRows(columns: seq<Column>, count: nat): seq<Json>
    requires forall a :: 0 <= a < |columns| ==> |columns[a].values| >= count
  {
    if count == 0 then [] else ExpandRows(columns, count - 1) + [Obj(BuildRow(columns, count - 1, []))]
  }

  method ExpandRow(columns: seq<Column>, index: nat) returns (row: seq<Field>)
    requires forall a :: 0 <= a < |columns| ==> index < |columns[a].values|
    ensures row == BuildRow(columns, index, [])
  {
    row := [];
    for c := 0 to |columns|
      invariant BuildRow(columns, index, []) == BuildRow(columns[c..], index, row)
    {
      assert columns[c..][0] == columns[c] && columns[c..][1..] == columns[c + 1..];
      row := Set(row, columns[c].name, columns[c].values[index]);
    }
  }

  method ExpandInspectedRows(columns: seq<Column>, count: nat) returns (rows: seq<Json>)
    requires Regular(columns, count)
    ensures rows == ExpandRows(columns, count)
  {
    rows := [];
    for index := 0 to count
      invariant rows == ExpandRows(columns, index)
    {
      var row := ExpandRow(columns, index);
      rows := rows + [Obj(row)];
    }
  }

  predicate Unnamed(fields: seq<Field>, columns: seq<Column>) {
    forall a :: 0 <= a < |columns| ==> Lookup(fields, columns[a].name).None?
  }

  /** A cell of a built row is the value its column holds at that row; other names are absent. */
  lemma {:induction false} BuildRowLookup(columns: seq<Column>, i: nat, fields: seq<Field>, name: seq<Unit>, count: nat)
    requires Regular(columns, count) && i < count
    ensures var v := ColumnNamed(columns, name);
      && (v.Some? ==> |v.value| == count)
      && Lookup(BuildRow(columns, i, fields), name) == if v.Some? then Some(v.value[i]) else Lookup(fields, name)
    decreases |columns|
  {
    if columns != [] {
      var c := columns[0];
      LookupSet(fields, c.name, c.values[i], name);
      BuildRowLookup(columns[1..], i, Set(fields, c.name, c.values[i]), name, count);
      if c.name == name {
        NotNamedLater(columns[1..], name);
      }
    }
  }

  lemma {:induction false} NotNamedLater(columns: seq<Column>, name: seq<Unit>)
    requires forall a :: 0 <= a < |columns| ==> columns[a].name != name
    ensures ColumnNamed(columns, name).None?
  {
    if columns != [] { NotNamedLater(columns[1..], name); }
  }

  lemma {:induction false} ExpandedAt(columns: seq<Column>, count: nat, i: nat)
    requires Regular(columns, count) && i < count
    ensures |ExpandRows(columns, count)| == count && ExpandRows(columns, count)[i] == Obj(BuildRow(columns, i, []))
  {
    ExpandedPrefix(columns, count, count, i);
  }

  lemma {:induction false} ExpandedPrefix(columns: seq<Column>, count: nat, k: nat, i: nat)
    requires Regular(columns, count) && i < k <= count
    ensures |ExpandRows(columns, k)| == k && ExpandRows(columns, k)[i] == Obj(BuildRow(columns, i, []))
    decreases k
  {
    if k > 1 {
      ExpandedPrefix(columns, count, k - 1, if i < k - 1 then i else 0);
    }
  }

  /**
   Transposition, end to end. For every chunk read as columns, row `i` of the expansion has under
   each name the `i`-th value of the last vector sent under that name, and no other property.
   */
  lemma ExpansionTransposes(chunk: seq<Field>, i: nat, name: seq<Unit>)
    requires Inspect(chunk).ColumnForm? && i < Inspect(chunk).rowCount
    ensures Regular(Inspect(chunk).columns, Inspect(chunk).rowCount)
    ensures var n := Inspect(chunk).rowCount; var rows := ExpandRows(Inspect(chunk).columns, n);
      var raw := ReadHeader(Lookup(chunk, COLUMNAR).value.fields).value.1;
      var v := LastNamed(raw, n, name);
      && |rows| == n && rows[i].Obj?
      && (v.Some? ==> |v.value| == n)
      && Lookup(rows[i].fields, name) == if v.Some? then Some(v.value[i]) else None
  {
    var n, columns := Inspect(chunk).rowCount, Inspect(chunk).columns;
    var raw := ReadHeader(Lookup(chunk, COLUMNAR).value.fields).value.1;
    SelectRegular(raw, n, []);
    SelectedIsLast(raw, n, [], name);
    ExpandedAt(columns, n, i);
    BuildRowLookup(columns, i, [], name, n);
  }

  // ------------------------------------------------------------------------ sizes

  /** `rowOverhead`: the braces, the commas between fields, and each name with its colon. */
  function RowOverhead(columns: seq<Column>): nat {
    NamesSize(columns) + 2 + (if |columns| > 0 then |columns| - 1 else 0)
  }

  function NamesSize(columns: seq<Column>): nat {
    if columns == [] then 0
    else NamesSize(columns[..|columns| - 1]) + QuotedSize(columns[|columns| - 1].name) + 1
  }

  function CellsSize(columns: seq<Column>, i: nat): nat
    requires forall a :: 0 <= a < |columns| ==> i < |columns[a].values|
  {
    if columns == [] then 0
    else CellsSize(columns[..|columns| - 1], i) + Size(columns[|columns| - 1].values[i])
  }

  /** The bytes of the first `k` rows without the commas between them. */
  function RowsSize(columns: seq<Column>, k: nat): nat
    requires forall a :: 0 <= a < |columns| ==> k <= |columns[a].values|
  {
    if k == 0 then 0 else RowsSize(columns, k - 1) + RowOverhead(columns) + CellsSize(columns, k - 1)
  }

  lemma {:induction false} NamesSizeFront(columns: seq<Column>)
    requires columns != []
    ensures NamesSize(columns) == QuotedSize(columns[0].name) + 1 + NamesSize(columns[1..])
    decreases |columns|
  {
    if |columns| > 1 {
      var n := |columns| - 1;
      assert columns[1..][..n - 1] == columns[..n][1..] && columns[1..][n - 1] == columns[n];
      NamesSizeFront(columns[..n]);
    }
  }

  lemma {:induction false} CellsSizeFront(columns: seq<Column>, i: nat)
    requires columns != [] && forall a :: 0 <= a < |columns| ==> i < |columns[a].values|
    ensures CellsSize(columns, i) == Size(columns[0].values[i]) + CellsSize(columns[1..], i)
    decreases |columns|
  {
    if |columns| > 1 {
      var n := |columns| - 1;
      assert columns[1..][..n - 1] == columns[..n][1..] && columns[1..][n - 1] == columns[n];
      CellsSizeFront(columns[..n], i);
    }
  }

  lemma {:induction false} BuildRowSize(columns: seq<Column>, i: nat, fields: seq<Field>, count: nat)
    requires Regular(columns, count) && i < count && Unnamed(fields, columns)
    ensures var r := BuildRow(columns, i, fields);
      && |r| == |fields| + |columns|
      && FieldsSize(r) == FieldsSize(fields) + NamesSize(columns) + CellsSize(columns, i)
           + (if |columns| == 0 then 0 else if fields == [] then |columns| - 1 else |columns|)
    decreases |columns|
  {
    if columns != [] {
      var c := columns[0];
      var next := Set(fields, c.name, c.values[i]);
      InsertSize(fields, Field(c.name, c.values[i]));
      NamesSizeFront(columns);
      CellsSizeFront(columns, i);
      forall a | 0 <= a < |columns[1..]|
        ensures Lookup(next, columns[1..][a].name).None?
      {
        LookupSet(fields, c.name, c.values[i], columns[a + 1].name);
      }
      BuildRowSize(columns[1..], i, next, count);
    }
  }

  lemma {:induction false} ItemsSizeAppend(items: seq<Json>, x: Json)
    ensures ItemsSize(items + [x]) == ItemsSize(items) + Size(x) + (if items == [] then 0 else 1)
  {
    if items != [] {
      assert (items + [x])[1..] == items[1..] + [x];
      ItemsSizeAppend(items[1..], x);
    }
  }

  lemma RowSize(columns: seq<Column>, i: nat, count: nat)
    requires Regular(columns, count) && i < count
    ensures Size(Obj(BuildRow(columns, i, []))) == RowOverhead(columns) + CellsSize(columns, i)
  {
    BuildRowSize(columns, i, [], count);
  }

  lemma {:induction false} ExpandedSize(columns: seq<Column>, k: nat, count: nat)
    requires Regular(columns, count) && k <= count
    ensures |ExpandRows(columns, k)| == k
    ensures ItemsSize(ExpandRows(columns, k)) == RowsSize(columns, k) + (if k > 0 then k - 1 else 0)
    decreases k
  {
    if k > 0 {
      ExpandedSize(columns, k - 1, count);
      RowSize(columns, k - 1, count);
      ItemsSizeAppend(ExpandRows(columns, k - 1), Obj(BuildRow(columns, k - 1, [])));
    }
  }

  lemma {:induction false} RowsSizeMonotone(columns: seq<Column>, j: nat, k: nat)
    requires j <= k && forall a :: 0 <= a < |columns| ==> k <= |columns[a].values|
    ensures RowsSize(columns, j) <= RowsSize(columns, k)
    decreases k
  {
    if j < k { RowsSizeMonotone(columns, j, k - 1); }
  }

  // ---------------------------------------------------------------- normalization

  datatype Outcome =
    | NotColumnar
    | Vetoed
    | Threw(message: string)
    | Normalized(payload: seq<Field>, originalSizeBytes: nat)

  const ROW_LIMIT_MESSAGE := "rpc:chunk exceeds negotiated row limit"
  const BYTE_LIMIT_MESSAGE := "Normalized rpc:chunk exceeds payload byte limit"

  /** The payload that leaves the codec: no columnar copy, and the rows written out. */
  function ExpandedPayload(chunk: seq<Field>): seq<Field>
    requires !Inspect(chunk).Invalid?
  {
    var payload := Without(chunk, COLUMNAR);
    match Inspect(chunk)
    case RowForm(_) => payload
    case ColumnForm(n, columns) =>
      InspectedRegular(chunk);
      Set(payload, ROWS, Arr(ExpandRows(columns, n)))
  }

  lemma InspectedRegular(chunk: seq<Field>)
    ensures var r := Inspect(chunk); r.ColumnForm? ==> Regular(r.columns, r.rowCount)
  {
    if Inspect(chunk).ColumnForm? {
      var raw := ReadHeader(Lookup(chunk, COLUMNAR).value.fields).value.1;
      SelectRegular(raw, Inspect(chunk).rowCount, []);
    }
  }

  /**
   What normalization should decide, stated on the true size of the real encoding of the finished
   payload: nothing here counts bytes in advance.
   */
  function Verdict(chunk: seq<Field>, maxRows: int, maxBytes: int, admit: (nat, nat) -> bool): Outcome {
    if Lookup(chunk, COLUMNAR).None? then NotColumnar else
    var inspected := Inspect(chunk);
    if inspected.Invalid? then Threw(inspected.message)
    else if inspected.ColumnForm? && inspected.rowCount > maxRows then Threw(ROW_LIMIT_MESSAGE) else
    var payload := ExpandedPayload(chunk);
    var size := EncodedSize(Obj(payload));
    if size > maxBytes then Threw(BYTE_LIMIT_MESSAGE)
    else if !admit(inspected.rowCount, size) then Vetoed
    else Normalized(payload, size)
  }

  lemma FilledSize(payload: seq<Field>, rows: seq<Json>)
    requires Lookup(payload, ROWS) == Some(Arr([]))
    ensures EncodedSize(Obj(Set(payload, ROWS, Arr(rows)))) == EncodedSize(Obj(payload)) + ItemsSize(rows)
  {
    ReplaceSize(payload, ROWS, Arr(rows));
    SizeIsEncodedSize(Obj(payload));
    SizeIsEncodedSize(Obj(Set(payload, ROWS, Arr(rows))));
  }

  lemma ColumnFormRows(chunk: seq<Field>)
    requires Inspect(chunk).ColumnForm?
    ensures Lookup(Without(chunk, COLUMNAR), ROWS) == Some(Arr([]))
  {
    assert Lookup(chunk, ROWS).value.items == [];
    assert |ROWS| != |COLUMNAR|;
    LookupWithout(chunk, COLUMNAR, ROWS);
  }

  /** The true size, in the terms in which the code adds it up. */
  lemma ExpandedPayloadSize(chunk: seq<Field>)
    requires Inspect(chunk).ColumnForm?
    ensures Regular(Inspect(chunk).columns, Inspect(chunk).rowCount)
    ensures var n := Inspect(chunk).rowCount;
      EncodedSize(Obj(ExpandedPayload(chunk)))
        == EncodedSize(Obj(Without(chunk, COLUMNAR))) + (if n > 0 then n - 1 else 0)
           + RowsSize(Inspect(chunk).columns, n)
  {
    var n, columns := Inspect(chunk).rowCount, Inspect(chunk).columns;
    InspectedRegular(chunk);
    ColumnFormRows(chunk);
    FilledSize(Without(chunk, COLUMNAR), ExpandRows(columns, n));
    ExpandedSize(columns, n, n);
  }

  /** `jsonValueBytes`: exact lengths for primitives without building their text. */
  method JsonValueBytes(v: Json) returns (n: nat)
    ensures n == EncodedSize(v)
  {
    SizeIsEncodedSize(v);
    match v
    case Null => n := 4;
    case Bool(b) => n := if b then 4 else 5;
    case Num(x) => n := if x.NotFinite? then 4 else |NumberText(x)|;
    case Str(s) => n := JsonStringBytes(s);
    case _ => n := |Utf8(Stringify(v))|;
  }

  method RowOverheadBytes(columns: seq<Column>) returns (bytes: nat)
    ensures bytes == RowOverhead(columns)
  {
    bytes := 2 + if |columns| > 0 then |columns| - 1 else 0;
    for k := 0 to |columns|
      invariant bytes == NamesSize(columns[..k]) + 2 + (if |columns| > 0 then |columns| - 1 else 0)
    {
      assert columns[..k + 1][..k] == columns[..k];
      bytes := bytes + |Utf8(Quote(columns[k].name))| + 1;
    }
    assert columns[..|columns|] == columns;
  }

  /** Adds up the rows, giving up as soon as the running size passes the limit. */
  method CountRows(columns: seq<Column>, count: nat, start: nat, maxBytes: int) returns (over: bool, size: nat)
    requires Regular(columns, count)
    ensures over <==> count > 0 && start + RowsSize(columns, count) > maxBytes
    ensures !over ==> size == start + RowsSize(columns, count)
  {
    var rowOverhead := RowOverheadBytes(columns);
    size := start;
    for row := 0 to count
      invariant size == start + RowsSize(columns, row)
      invariant row > 0 ==> size <= maxBytes
    {
      size := size + rowOverhead;
      for c := 0 to |columns|
        invariant size == start + RowsSize(columns, row) + rowOverhead + CellsSize(columns[..c], row)
      {
        assert columns[..c + 1][..c] == columns[..c];
        var cell := JsonValueBytes(columns[c].values[row]);
        SizeIsEncodedSize(columns[c].values[row]);
        size := size + cell;
      }
      assert columns[..|columns|] == columns;
      if size > maxBytes {
        RowsSizeMonotone(columns, row + 1, count);
        return true, size;
      }
    }
    over := false;
  }

  /** The size of the finished payload of a columnar chunk, before any row of it exists. */
  method MeasureColumns(chunk: seq<Field>, columns: seq<Column>, count: nat, maxBytes: int)
      returns (over: bool, size: nat)
    requires Inspect(chunk) == ColumnForm(count, columns)
    ensures over ==> EncodedSize(Obj(ExpandedPayload(chunk))) > maxBytes
    ensures !over ==> size == EncodedSize(Obj(ExpandedPayload(chunk)))
  {
    ExpandedPayloadSize(chunk);
    size := EncodedSize(Obj(Without(chunk, COLUMNAR)));
    size := size + if count > 0 then count - 1 else 0;
    over, size := CountRows(columns, count, size, maxBytes);
  }

  method FillRows(chunk: seq<Field>, inspected: Inspection) returns (payload: seq<Field>)
    requires inspected == Inspect(chunk) && !inspected.Invalid?
    ensures payload == ExpandedPayload(chunk)
  {
    payload := Without(chunk, COLUMNAR);
    if inspected.ColumnForm? {
      InspectedRegular(chunk);
      var rows := ExpandInspectedRows(inspected.columns, inspected.rowCount);
      payload := Set(payload, ROWS, Arr(rows));
    }
  }

  /** Normalization decides exactly as `Verdict`, from sizes known before any row is built. */
  method NormalizeColumnarChunk(chunk: seq<Field>, maxRows: int, maxBytes: int, admit: (nat, nat) -> bool)
      returns (r: Outcome)
    ensures r == Verdict(chunk, maxRows, maxBytes, admit)
  {
    if Lookup(chunk, COLUMNAR).None? { return NotColumnar; }
    var inspected := InspectChunk(chunk);
    if inspected.Invalid? { return Threw(inspected.message); }
    var size := EncodedSize(Obj(Without(chunk, COLUMNAR)));
    if inspected.ColumnForm? {
      if inspected.rowCount > maxRows { return Threw(ROW_LIMIT_MESSAGE); }
      var over;
      over, size := MeasureColumns(chunk, inspected.columns, inspected.rowCount, maxBytes);
      if over { return Threw(BYTE_LIMIT_MESSAGE); }
    }
    if size > maxBytes { return Threw(BYTE_LIMIT_MESSAGE); }
    if !admit(inspected.rowCount, size) { return Vetoed; }
    var payload := FillRows(chunk, inspected);
    return Normalized(payload, size);
  }

  /** The row limit guards only the columnar form: rows sent as maps pass it by. */
  lemma RowLimitOnlyForColumns(chunk: seq<Field>, maxRows: int, maxBytes: int, admit: (nat, nat) -> bool)
    requires Lookup(chunk, COLUMNAR).Some? && !Inspect(chunk).Invalid?
    requires EncodedSize(Obj(ExpandedPayload(chunk))) <= maxBytes
    requires admit(Inspect(chunk).rowCount, EncodedSize(Obj(ExpandedPayload(chunk))))
    ensures Verdict(chunk, maxRows, maxBytes, admit).Normalized?
       <==> (Inspect(chunk).ColumnForm? ==> Inspect(chunk).rowCount <= maxRows)
  {}

  /** A chunk of two row maps that also carries a columnar body passes a row limit of one. */
  lemma RowFormPassesRowLimit() returns (chunk: seq<Field>, maxBytes: int)
    ensures Lookup(chunk, COLUMNAR).Some? && Lookup(chunk, COLUMNAR).value.Obj?
    ensures Inspect(chunk).RowForm? && Inspect(chunk).rowCount == 2
    ensures var rows := Lookup(chunk, ROWS);
      rows.Some? && rows.value.Arr? && forall r :: r in rows.value.items ==> r.Obj?
    ensures Verdict(chunk, 1, maxBytes, (_, _) => true).Normalized?
  {
    var row := Obj([Field(U("a"), Null)]);
    var body := Obj([Field(U("row_count"), Num(SafeInt(0))), Field(U("columns"), Arr([]))]);
    chunk := [Field(ROWS, Arr([row, row])), Field(COLUMNAR, body)];
    assert |ROWS| != |COLUMNAR|;
    assert Lookup(chunk[1..], COLUMNAR) == Some(body);
    maxBytes := EncodedSize(Obj(ExpandedPayload(chunk)));
  }
}
