/**
 Columnar chunks read off their raw fields: exactly which chunks are row form, columnar or invalid,
 which cell of which vector every row holds, and what normalization decides.
 */
module SqlChunkShape {
  import opened Options
  import opened JsonText
  import opened JsonValues
  import opened SqlChunkCodec

  // -------------------------------------------------------------------- column types

  predicate IsTypeName(s: seq<Unit>) {
    s == U("int32") || s == U("int64") || s == U("float64") || s == U("object")
  }

  /** A type name, or any nesting of one-element lists around one, which `String` reads the same way. */
  predicate AcceptedType(v: Json)
    decreases v
  {
    match v
    case Str(s) => IsTypeName(s)
    case Arr(items) => |items| == 1 && AcceptedType(items[0])
    case _ => false
  }

  lemma TypeNamesAreWords(s: seq<Unit>)
    requires IsTypeName(s)
    ensures |s| > 0 && (s[0] == 0x69 || s[0] == 0x66 || s[0] == 0x6F) && COMMA !in s
    ensures s != NULL_TEXT && s != TRUE_TEXT && s != FALSE_TEXT
  {
    assert |U("int32")| == 5 && |U("int64")| == 5 && |U("float64")| == 7 && |U("object")| == 6;
  }

  lemma {:induction false} NumberIsNoType(n: Number)
    ensures !IsTypeName(NumberText(n))
  {
    var s := NumberText(n);
    if n.SafeInt? {
      DigitsBegin(if n.value < 0 then -n.value else n.value);
    }
    assert s == NULL_TEXT || 0x30 <= s[0] <= 0x39 || s[0] == 0x2D;
    if IsTypeName(s) { TypeNamesAreWords(s); }
  }

  lemma {:induction false} DigitsBegin(n: nat)
    ensures |Digits(n)| > 0 && 0x30 <= Digits(n)[0] <= 0x39
  {
    if n >= 10 { DigitsBegin(n / 10); }
  }

  lemma ObjectIsNoType()
    ensures !IsTypeName(U("[object Object]"))
  {
    assert |U("[object Object]")| == 15;
    if IsTypeName(U("[object Object]")) { TypeNamesAreWords(U("[object Object]")); }
  }

  /** Which values a column's type may have. */
  lemma {:induction false} TypeIff(v: Json)
    ensures IsColumnType(Some(v)) <==> AcceptedType(v)
    decreases v
  {
    assert IsColumnType(Some(v)) <==> IsTypeName(JsString(v));
    match v
    case Null => if IsTypeName(NULL_TEXT) { TypeNamesAreWords(NULL_TEXT); }
    case Bool(b) => if IsTypeName(JsString(v)) { TypeNamesAreWords(JsString(v)); }
    case Num(n) => NumberIsNoType(n);
    case Str(s) =>
    case Obj(_) => ObjectIsNoType();
    case Arr(items) =>
      if |items| == 1 {
        TypeIff(items[0]);
        assert items[1..] == [] && JsJoin(items) == if items[0].Null? then [] else JsString(items[0]);
      } else if |items| > 1 {
        assert COMMA in JsJoin(items);
        if IsTypeName(JsString(v)) { TypeNamesAreWords(JsString(v)); }
      }
  }

  // --------------------------------------------------------------------- the shapes

  /** A well-formed vector of `count` values, on its own fields. */
  predicate GoodVector(v: Json, count: nat) {
    v.Obj? &&
    var name, kind, values :=
      Lookup(v.fields, U("name")), Lookup(v.fields, U("type")), Lookup(v.fields, U("values"));
    && name.Some? && name.value.Str?
    && kind.Some? && AcceptedType(kind.value)
    && values.Some? && values.value.Arr? && |values.value.items| == count
  }

  /** A well-formed columnar body of `count` rows with these raw columns. */
  predicate GoodBody(v: Json, count: nat, raw: seq<Json>) {
    && v.Obj?
    && Lookup(v.fields, U("row_count")) == Some(Num(SafeInt(count)))
    && Lookup(v.fields, U("columns")) == Some(Arr(raw))
    && forall k :: 0 <= k < |raw| ==> GoodVector(raw[k], count)
  }

  lemma VectorIff(v: Json, count: nat)
    ensures ReadColumn(v, count).Some? <==> GoodVector(v, count)
  {
    if v.Obj? && Lookup(v.fields, U("type")).Some? {
      TypeIff(Lookup(v.fields, U("type")).value);
    }
  }

  lemma {:induction false} SelectIff(raw: seq<Json>, count: nat, selected: seq<Column>)
    ensures SelectColumns(raw, count, selected).Some? <==> forall k :: 0 <= k < |raw| ==> GoodVector(raw[k], count)
    decreases |raw|
  {
    if raw != [] {
      VectorIff(raw[0], count);
      assert forall k :: 1 <= k < |raw| ==> raw[k] == raw[1..][k - 1];
      if GoodVector(raw[0], count) {
        SelectIff(raw[1..], count, PutColumn(selected, ReadColumn(raw[0], count).value));
      }
    }
  }

  /** The chunk carries a list of rows. */
  predicate CarriesRows(chunk: seq<Field>, items: seq<Json>) {
    Lookup(chunk, U("rows")) == Some(Arr(items))
  }

  /** Row form: a list of rows that is not empty, or no columnar member beside it. */
  lemma RowFormIff(chunk: seq<Field>, n: nat)
    ensures Inspect(chunk) == RowForm(n) <==>
      exists items :: CarriesRows(chunk, items) && |items| == n && (n > 0 || Lookup(chunk, U("columnar")).None?)
  {
    var rows := Lookup(chunk, U("rows"));
    if rows.Some? && rows.value.Arr? {
      assert CarriesRows(chunk, rows.value.items);
    }
  }

  /** Columnar form: an empty list of rows and a well-formed columnar body. */
  lemma ColumnFormIff(chunk: seq<Field>, n: nat)
    ensures Inspect(chunk).ColumnForm? && Inspect(chunk).rowCount == n <==>
      && CarriesRows(chunk, []) && Lookup(chunk, U("columnar")).Some?
      && exists raw :: GoodBody(Lookup(chunk, U("columnar")).value, n, raw)
  {
    var columnar := Lookup(chunk, U("columnar"));
    if columnar.Some? && columnar.value.Obj? {
      var columns := Lookup(columnar.value.fields, U("columns"));
      if columns.Some? && columns.value.Arr? {
        SelectIff(columns.value.items, n, []);
        assert Inspect(chunk).ColumnForm? && Inspect(chunk).rowCount == n ==>
          GoodBody(columnar.value, n, columns.value.items);
      }
    }
  }

  /** Everything else is invalid, and the message says which check failed first. */
  lemma InvalidIff(chunk: seq<Field>)
    ensures var rows, columnar := Lookup(chunk, U("rows")), Lookup(chunk, U("columnar")); var r := Inspect(chunk);
      && (r == Invalid(ROWS_MESSAGE) <==> !(rows.Some? && rows.value.Arr?))
      && (r == Invalid(COLUMNAR_MESSAGE) <==>
            CarriesRows(chunk, []) && columnar.Some? && !columnar.value.Obj?)
      && (r == Invalid(SHAPE_MESSAGE) <==>
            CarriesRows(chunk, []) && columnar.Some? && columnar.value.Obj? && !GoodHeader(columnar.value))
      && (r == Invalid(VECTOR_MESSAGE) <==>
            && CarriesRows(chunk, []) && columnar.Some? && GoodHeader(columnar.value)
            && !(forall v :: v in ColumnsOf(columnar.value) ==> GoodVector(v, CountOf(columnar.value))))
      && (r.Invalid? ==> r.message in [ROWS_MESSAGE, COLUMNAR_MESSAGE, SHAPE_MESSAGE, VECTOR_MESSAGE])
  {
    assert |ROWS_MESSAGE| != |COLUMNAR_MESSAGE| && |ROWS_MESSAGE| != |SHAPE_MESSAGE|;
    assert |COLUMNAR_MESSAGE| != |SHAPE_MESSAGE| && COLUMNAR_MESSAGE[19] != VECTOR_MESSAGE[19];
    assert |ROWS_MESSAGE| != |VECTOR_MESSAGE| && |SHAPE_MESSAGE| != |VECTOR_MESSAGE|;
    var columnar := Lookup(chunk, U("columnar"));
    if columnar.Some? && GoodHeader(columnar.value) {
      SelectIff(ColumnsOf(columnar.value), CountOf(columnar.value), []);
    }
  }

  predicate GoodHeader(v: Json) {
    v.Obj? &&
    var count, columns := Lookup(v.fields, U("row_count")), Lookup(v.fields, U("columns"));
    && count.Some? && count.value.Num? && count.value.n.SafeInt? && count.value.n.value >= 0
    && columns.Some? && columns.value.Arr?
  }

  function CountOf(v: Json): nat
    requires GoodHeader(v)
  {
    Lookup(v.fields, U("row_count")).value.n.value
  }

  function ColumnsOf(v: Json): seq<Json>
    requires GoodHeader(v)
  {
    Lookup(v.fields, U("columns")).value.items
  }

  // ---------------------------------------------------------------------- the cells

  predicate Named(v: Json, name: seq<Unit>) {
    v.Obj? && Lookup(v.fields, U("name")) == Some(Str(name))
  }

  /** The items of the vector's `values`. */
  function ValuesOf(v: Json): seq<Json> {
    if v.Obj? && Lookup(v.fields, U("values")).Some? && Lookup(v.fields, U("values")).value.Arr?
    then Lookup(v.fields, U("values")).value.items else []
  }

  /** The vector at this index is the last one sent under the name. */
  predicate IsLast(raw: seq<Json>, k: nat, name: seq<Unit>) {
    k < |raw| && Named(raw[k], name) && forall j :: k < j < |raw| ==> !Named(raw[j], name)
  }

  lemma {:induction false} LastNamedIs(raw: seq<Json>, count: nat, name: seq<Unit>, k: nat)
    requires forall j :: 0 <= j < |raw| ==> GoodVector(raw[j], count)
    ensures IsLast(raw, k, name) ==> LastNamed(raw, count, name) == Some(ValuesOf(raw[k]))
    ensures (forall j :: 0 <= j < |raw| ==> !Named(raw[j], name)) ==> LastNamed(raw, count, name).None?
    decreases |raw|
  {
    if raw != [] {
      var n := |raw| - 1;
      assert GoodVector(raw[n], count);
      VectorIff(raw[n], count);
      if !Named(raw[n], name) {
        LastNamedIs(raw[..n], count, name, k);
        assert IsLast(raw, k, name) ==> IsLast(raw[..n], k, name);
      }
    }
  }

  /**
   Every cell, on the raw chunk. Row i of the expansion holds under each name item i of the values
   of the last vector sent under that name, and nothing under a name that no vector has.
   */
  lemma CellsAreAsSent(chunk: seq<Field>, n: nat, raw: seq<Json>, i: nat, name: seq<Unit>, k: nat)
    requires CarriesRows(chunk, []) && Lookup(chunk, U("columnar")).Some?
    requires GoodBody(Lookup(chunk, U("columnar")).value, n, raw) && i < n
    ensures Inspect(chunk).ColumnForm? && Regular(Inspect(chunk).columns, n)
    ensures var rows := ExpandRows(Inspect(chunk).columns, n);
      && |rows| == n && rows[i].Obj?
      && (IsLast(raw, k, name) ==>
            |ValuesOf(raw[k])| == n && Lookup(rows[i].fields, name) == Some(ValuesOf(raw[k])[i]))
      && ((forall j :: 0 <= j < |raw| ==> !Named(raw[j], name)) ==> Lookup(rows[i].fields, name).None?)
  {
    ColumnFormIff(chunk, n);
    ExpansionTransposes(chunk, i, name);
    LastNamedIs(raw, n, name, k);
  }

  // ----------------------------------------------------------------- the normal form

  /** The payload loses its columnar member, has the expanded rows, and keeps every other member. */
  lemma PayloadMembers(chunk: seq<Field>, name: seq<Unit>)
    requires !Inspect(chunk).Invalid?
    ensures var payload := ExpandedPayload(chunk); var r := Inspect(chunk);
      && Lookup(payload, U("columnar")).None?
      && (name != U("columnar") && name != U("rows") ==> Lookup(payload, name) == Lookup(chunk, name))
      && (r.RowForm? ==> Lookup(payload, U("rows")) == Lookup(chunk, U("rows")))
      && (r.ColumnForm? ==> Regular(r.columns, r.rowCount))
      && (r.ColumnForm? ==> Lookup(payload, U("rows")) == Some(Arr(ExpandRows(r.columns, r.rowCount))))
  {
    InspectedRegular(chunk);
    assert |U("rows")| != |U("columnar")|;
    LookupWithout(chunk, COLUMNAR, name);
    LookupWithout(chunk, COLUMNAR, ROWS);
    LookupWithout(chunk, COLUMNAR, COLUMNAR);
    if Inspect(chunk).ColumnForm? {
      var rows := Arr(ExpandRows(Inspect(chunk).columns, Inspect(chunk).rowCount));
      LookupSet(Without(chunk, COLUMNAR), ROWS, rows, name);
      LookupSet(Without(chunk, COLUMNAR), ROWS, rows, ROWS);
      LookupSet(Without(chunk, COLUMNAR), ROWS, rows, COLUMNAR);
    }
  }

  /** Exactly which chunks come out normalized, vetoed, untouched or refused. */
  lemma VerdictIff(chunk: seq<Field>, maxRows: int, maxBytes: int, admit: (nat, nat) -> bool)
    ensures var v := Verdict(chunk, maxRows, maxBytes, admit); var r := Inspect(chunk);
      var within := r.ColumnForm? ==> r.rowCount <= maxRows;
      && (v == NotColumnar <==> Lookup(chunk, U("columnar")).None?)
      && (Lookup(chunk, U("columnar")).Some? && !r.Invalid? ==>
            var size := EncodedSize(Obj(ExpandedPayload(chunk)));
            && (v.Normalized? <==> within && size <= maxBytes && admit(r.rowCount, size))
            && (v.Normalized? ==> v == Normalized(ExpandedPayload(chunk), size))
            && (v == Vetoed <==> within && size <= maxBytes && !admit(r.rowCount, size)))
      && (Lookup(chunk, U("columnar")).Some? && r.Invalid? ==> v == Threw(r.message))
  {
  }
}
