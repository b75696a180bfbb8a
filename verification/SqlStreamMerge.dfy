/**
 Merging a SQL stream into one JSON-RPC reply (merge_sql_stream_rpc_response.ts), and what the
 normalized chunks of SqlChunkCodec contribute to it.
 */
module SqlStreamMerge {
  import opened Options
  import opened JsonText
  import opened JsonValues
  import opened JsonReading
  import opened SqlChunkCodec

  const RESULT := U("result")
  const TOTAL_ROWS := U("total_rows")
  const STREAM_ID := U("stream_id")
  const TERMINAL_STATUS := U("terminal_status")

  datatype Reply = Value(v: Json) | StreamFailed(status: Json)

  predicate IsRecord(v: Json) {
    v.Obj? || v.Arr?
  }

  /** `v.name`; an array has none of the names used here. */
  function Get(v: Json, name: seq<Unit>): Option<Json> {
    if v.Obj? then Lookup(v.fields, name) else None
  }

  function IndexFields(items: seq<Json>, from: nat): seq<Field> {
    if items == [] then [] else [Field(Digits(from), items[0])] + IndexFields(items[1..], from + 1)
  }

  /** The properties that `{...v}` copies. */
  function Spread(v: Json): seq<Field> {
    match v
    case Obj(fields) => fields
    case Arr(items) => IndexFields(items, 0)
    case _ => []
  }

  function RowsIn(v: Option<Json>): seq<Json> {
    if v.Some? && v.value.Arr? then v.value.items else []
  }

  /** A chunk's `rows` array, or nothing. */
  function ChunkRows(chunk: seq<Field>): seq<Json> {
    RowsIn(Lookup(chunk, ROWS))
  }

  /** All the rows of a list of chunks, in order. */
  function AllRows(chunks: seq<seq<Field>>): seq<Json> {
    if chunks == [] then [] else ChunkRows(chunks[0]) + AllRows(chunks[1..])
  }

  predicate HasResult(initial: Json) {
    Get(initial, RESULT).Some? && IsRecord(Get(initial, RESULT).value)
  }

  predicate Failed(complete: seq<Field>) {
    var status := Lookup(complete, TERMINAL_STATUS);
    status == Some(Str(U("aborted"))) || status == Some(Str(U("error")))
  }

  /** The completion carries a finite number of rows; anything else in its place is ignored. */
  predicate AnnouncesTotal(complete: seq<Field>) {
    var total := Lookup(complete, TOTAL_ROWS);
    total.Some? && total.value.Num? && !total.value.n.NotFinite?
  }

  function TotalRows(complete: seq<Field>, rows: seq<Json>): Json {
    if AnnouncesTotal(complete) then Lookup(complete, TOTAL_ROWS).value else Num(SafeInt(|rows|))
  }

  /** The reply's result: the initial one with these rows and a total, without the stream id. */
  function MergedResult(result: Json, complete: seq<Field>, rows: seq<Json>): seq<Field> {
    Without(Set(Set(Spread(result), ROWS, Arr(rows)), TOTAL_ROWS, TotalRows(complete, rows)), STREAM_ID)
  }

  /** The reply with these rows written into its result. */
  function WithRows(initial: Json, complete: seq<Field>, rows: seq<Json>): Json
    requires HasResult(initial)
  {
    Obj(Set(Spread(initial), RESULT, Obj(MergedResult(Get(initial, RESULT).value, complete, rows))))
  }

  function InitialRows(initial: Json): seq<Json> {
    if HasResult(initial) then RowsIn(Get(Get(initial, RESULT).value, ROWS)) else []
  }

  /** The reply for an accumulated list of rows. */
  function Merge(initial: Json, appended: seq<Json>, complete: seq<Field>): Reply {
    if !HasResult(initial) then Value(initial)
    else if Failed(complete) then StreamFailed(Lookup(complete, TERMINAL_STATUS).value)
    else Value(WithRows(initial, complete, InitialRows(initial) + appended))
  }

  // ------------------------------------------------------------------- the methods

  /** A JavaScript array: an object whose elements change. */
  class RowArray {
    var items: seq<Json>

    constructor (items: seq<Json>)
      ensures this.items == items
    {
      this.items := items;
    }
  }

  method AppendArrayElements(target: RowArray, source: seq<Json>)
    modifies target
    ensures target.items == old(target.items) + source
  {
    for i := 0 to |source|
      invariant target.items == old(target.items) + source[..i]
    {
      target.items := target.items + [source[i]];
    }
    assert source[..|source|] == source;
  }

  method AppendSqlStreamChunkRows(target: RowArray, chunk: seq<Field>) returns (n: nat)
    modifies target
    ensures target.items == old(target.items) + ChunkRows(chunk) && n == |ChunkRows(chunk)|
  {
    var rows := Lookup(chunk, ROWS);
    if rows.None? || !rows.value.Arr? { return 0; }
    AppendArrayElements(target, rows.value.items);
    return |rows.value.items|;
  }

  /** The one-shot merge over a list of chunks. */
  method MergeSqlStreamRpcResponse(initial: Json, chunks: seq<seq<Field>>, complete: seq<Field>)
      returns (reply: Reply)
    ensures reply == Merge(initial, AllRows(chunks), complete)
  {
    if !IsRecord(initial) { return Value(initial); }
    var result := Get(initial, RESULT);
    if result.None? || !IsRecord(result.value) { return Value(initial); }
    if Failed(complete) { return StreamFailed(Lookup(complete, TERMINAL_STATUS).value); }
    var rows := new RowArray([]);
    AppendArrayElements(rows, RowsIn(Get(result.value, ROWS)));
    for k := 0 to |chunks|
      invariant rows.items + AllRows(chunks[k..]) == InitialRows(initial) + AllRows(chunks)
    {
      assert chunks[k..][0] == chunks[k] && chunks[k..][1..] == chunks[k + 1..];
      var _ := AppendSqlStreamChunkRows(rows, chunks[k]);
    }
    assert rows.items == InitialRows(initial) + AllRows(chunks);
    return Value(WithRows(initial, complete, rows.items));
  }

  /**
   The merge of an accumulator. Without ownership the reply's rows are a new array; with it, and
   with no initial rows, they are the accumulator itself. The value is the same either way.
   */
  method MergeRows(initial: Json, appended: RowArray, complete: seq<Field>, takeOwnership: bool)
      returns (reply: Reply, rows: RowArray?)
    ensures reply == Merge(initial, appended.items, complete)
    ensures rows != null <==> HasResult(initial) && !Failed(complete)
    ensures rows != null ==> reply == Value(WithRows(initial, complete, rows.items))
    ensures rows != null ==> if takeOwnership && InitialRows(initial) == [] then rows == appended else fresh(rows)
    ensures appended.items == old(appended.items)
  {
    rows := null;
    if !IsRecord(initial) { return Value(initial), null; }
    var result := Get(initial, RESULT);
    if result.None? || !IsRecord(result.value) { return Value(initial), null; }
    if Failed(complete) { return StreamFailed(Lookup(complete, TERMINAL_STATUS).value), null; }
    var initialRows := RowsIn(Get(result.value, ROWS));
    if takeOwnership && |initialRows| == 0 {
      rows := appended;
      assert InitialRows(initial) + appended.items == appended.items;
    } else if |appended.items| == 0 {
      rows := new RowArray(initialRows);
      assert initialRows + appended.items == initialRows;
    } else {
      rows := new RowArray(initialRows);
      AppendArrayElements(rows, appended.items);
    }
    reply := Value(WithRows(initial, complete, rows.items));
  }

  /** The next chunk's rows move from what is still to come to what was appended. */
  lemma AppendNext(rows: seq<Json>, chunks: seq<seq<Field>>, k: nat)
    requires k < |chunks|
    ensures rows + AllRows(chunks[k..]) == (rows + ChunkRows(chunks[k])) + AllRows(chunks[k + 1..])
  {
    assert chunks[k..][0] == chunks[k] && chunks[k..][1..] == chunks[k + 1..];
  }

  /** Chunks appended one by one to a private accumulator and merged at the end. */
  method MergeIncrementally(initial: Json, chunks: seq<seq<Field>>, complete: seq<Field>, owned: bool)
      returns (reply: Reply, appendedCount: nat)
    ensures reply == Merge(initial, AllRows(chunks), complete)
    ensures appendedCount == |AllRows(chunks)|
  {
    var accumulator := new RowArray([]);
    appendedCount := 0;
    for k := 0 to |chunks|
      invariant accumulator.items + AllRows(chunks[k..]) == AllRows(chunks)
      invariant appendedCount == |accumulator.items|
    {
      AppendNext(accumulator.items, chunks, k);
      var n := AppendSqlStreamChunkRows(accumulator, chunks[k]);
      appendedCount := appendedCount + n;
    }
    assert accumulator.items == AllRows(chunks);
    var rows: RowArray?;
    reply, rows := MergeRows(initial, accumulator, complete, owned);
  }

  // --------------------------------------------- what a stream of chunks amounts to

  predicate ValidChunk(chunk: seq<Field>) {
    Lookup(chunk, COLUMNAR).None? || !Inspect(chunk).Invalid?
  }

  /** `readSqlChunkRows` on a chunk it accepts. */
  function ReadRows(chunk: seq<Field>): seq<Json>
    requires ValidChunk(chunk)
  {
    if Lookup(chunk, COLUMNAR).None? then ChunkRows(chunk) else
    match Inspect(chunk)
    case RowForm(_) => ChunkRows(chunk)
    case ColumnForm(n, columns) => InspectedRegular(chunk); ExpandRows(columns, n)
  }

  /** `countSqlChunkRows`. */
  function CountChunkRows(chunk: seq<Field>): nat {
    var r := Inspect(chunk);
    if r.Invalid? then 0 else r.rowCount
  }

  /** The chunk as it leaves the codec. */
  function NormalForm(chunk: seq<Field>): seq<Field>
    requires ValidChunk(chunk)
  {
    if Lookup(chunk, COLUMNAR).None? then chunk else ExpandedPayload(chunk)
  }

  /** Normalizing changes the shape of a chunk, never the rows it stands for. */
  lemma NormalFormKeepsRows(chunk: seq<Field>)
    requires ValidChunk(chunk)
    ensures ChunkRows(NormalForm(chunk)) == ReadRows(chunk)
    ensures CountChunkRows(chunk) == |ReadRows(chunk)|
  {
    if Lookup(chunk, COLUMNAR).Some? {
      assert |ROWS| != |COLUMNAR|;
      LookupWithout(chunk, COLUMNAR, ROWS);
      if Inspect(chunk).ColumnForm? {
        var n, columns := Inspect(chunk).rowCount, Inspect(chunk).columns;
        InspectedRegular(chunk);
        LookupSet(Without(chunk, COLUMNAR), ROWS, Arr(ExpandRows(columns, n)), ROWS);
        ExpandedSize(columns, n, n);
      }
    }
  }

  function NormalForms(chunks: seq<seq<Field>>): seq<seq<Field>>
    requires forall k :: 0 <= k < |chunks| ==> ValidChunk(chunks[k])
  {
    if chunks == [] then [] else [NormalForm(chunks[0])] + NormalForms(chunks[1..])
  }

  function ReadAll(chunks: seq<seq<Field>>): seq<Json>
    requires forall k :: 0 <= k < |chunks| ==> ValidChunk(chunks[k])
  {
    if chunks == [] then [] else ReadRows(chunks[0]) + ReadAll(chunks[1..])
  }

  function CountAll(chunks: seq<seq<Field>>): nat {
    if chunks == [] then 0 else CountChunkRows(chunks[0]) + CountAll(chunks[1..])
  }

  lemma {:induction false} NormalFormsKeepRows(chunks: seq<seq<Field>>)
    requires forall k :: 0 <= k < |chunks| ==> ValidChunk(chunks[k])
    ensures AllRows(NormalForms(chunks)) == ReadAll(chunks) && CountAll(chunks) == |ReadAll(chunks)|
  {
    if chunks != [] {
      NormalFormKeepsRows(chunks[0]);
      NormalFormsKeepRows(chunks[1..]);
      assert NormalForms(chunks)[1..] == NormalForms(chunks[1..]);
    }
  }

  lemma ResultOfReply(initial: Json, complete: seq<Field>, rows: seq<Json>, name: seq<Unit>)
    requires HasResult(initial)
    ensures var reply := WithRows(initial, complete, rows); var result := Get(reply, RESULT);
      && result.Some? && result.value.Obj?
      && Lookup(result.value.fields, name)
           == (if name == STREAM_ID then None
               else if name == TOTAL_ROWS then Some(TotalRows(complete, rows))
               else if name == ROWS then Some(Arr(rows))
               else Lookup(Spread(Get(initial, RESULT).value), name))
  {
    var fields := Spread(Get(initial, RESULT).value);
    var one := Set(fields, ROWS, Arr(rows));
    var two := Set(one, TOTAL_ROWS, TotalRows(complete, rows));
    LookupSet(fields, ROWS, Arr(rows), name);
    LookupSet(one, TOTAL_ROWS, TotalRows(complete, rows), name);
    LookupWithout(two, STREAM_ID, name);
    LookupSet(Spread(initial), RESULT, Obj(Without(two, STREAM_ID)), RESULT);
  }

  /** A list spread into an object: its i-th value under the name i, and no further property. */
  lemma {:induction false} ListSpread(items: seq<Json>, from: nat, i: nat)
    requires i < |items|
    ensures |IndexFields(items, from)| == |items|
    ensures Lookup(IndexFields(items, from), Digits(from + i)) == Some(items[i])
  {
    DigitsAreDigits(from);
    DigitsAreDigits(from + i);
    assert IndexFields(items, from)[1..] == IndexFields(items[1..], from + 1);
    if i > 0 {
      ListSpread(items[1..], from + 1, i - 1);
    } else if |items| > 1 {
      ListSpread(items[1..], from + 1, 0);
    }
  }

  /** A member of the initial envelope that merging can write into. */
  predicate CarriesResult(initial: Json, result: Json) {
    initial.Obj? && Lookup(initial.fields, U("result")) == Some(result) && (result.Obj? || result.Arr?)
  }

  /**
   What the merge answers, on the raw members: an initial message without a result object is handed
   on as it is, a stream that ended as aborted or in error fails with that status, and every other
   stream, whatever its status, gets the rows.
   */
  lemma MergeAnswers(initial: Json, result: Json, appended: seq<Json>, complete: seq<Field>)
    ensures var r := Merge(initial, appended, complete); var status := Lookup(complete, U("terminal_status"));
      && ((forall x :: !CarriesResult(initial, x)) ==> r == Value(initial))
      && (CarriesResult(initial, result) ==>
            var first := if result.Obj? && Lookup(result.fields, U("rows")).Some?
                            && Lookup(result.fields, U("rows")).value.Arr?
                         then Lookup(result.fields, U("rows")).value.items else [];
            if status == Some(Str(U("aborted"))) || status == Some(Str(U("error")))
            then r == StreamFailed(status.value)
            else r.Value? && r.v.Obj? && Lookup(r.v.fields, U("result")).Some?
                 && Get(Lookup(r.v.fields, U("result")).value, U("rows")) == Some(Arr(first + appended)))
  {
    if HasResult(initial) {
      assert CarriesResult(initial, Get(initial, RESULT).value);
      if !Failed(complete) {
        assert |ROWS| != |TOTAL_ROWS| && |ROWS| != |STREAM_ID|;
        ResultOfReply(initial, complete, InitialRows(initial) + appended, ROWS);
      }
    }
  }

  /** The reply keeps every member of the envelope other than its result. */
  lemma EnvelopeKept(initial: Json, complete: seq<Field>, rows: seq<Json>, name: seq<Unit>)
    requires HasResult(initial) && name != RESULT
    ensures Get(WithRows(initial, complete, rows), name) == Get(initial, name)
  {
    LookupSet(Spread(initial), RESULT, Obj(MergedResult(Get(initial, RESULT).value, complete, rows)), name);
  }

  /**
   Main result. For every envelope with a result and every list of valid chunks, in row or in
   columnar form, that ends well: the merged reply of the normalized chunks carries the initial
   rows followed by each chunk's rows, drops the stream id, and its default total is the sum of
   the row counters.
   */
  lemma StreamedReply(initial: Json, chunks: seq<seq<Field>>, complete: seq<Field>)
    requires forall k :: 0 <= k < |chunks| ==> ValidChunk(chunks[k])
    requires HasResult(initial) && !Failed(complete)
    ensures var reply := Merge(initial, AllRows(NormalForms(chunks)), complete);
      var rows := InitialRows(initial) + ReadAll(chunks);
      && reply.Value? && Get(reply.v, RESULT).Some?
      && Get(Get(reply.v, RESULT).value, ROWS) == Some(Arr(rows))
      && Get(Get(reply.v, RESULT).value, STREAM_ID) == None
      && |rows| == |InitialRows(initial)| + CountAll(chunks)
      && Get(Get(reply.v, RESULT).value, TOTAL_ROWS) == Some(
           if AnnouncesTotal(complete) then Lookup(complete, TOTAL_ROWS).value
           else Num(SafeInt(|InitialRows(initial)| + CountAll(chunks))))
  {
    NormalFormsKeepRows(chunks);
    var rows := InitialRows(initial) + ReadAll(chunks);
    assert |ROWS| != |TOTAL_ROWS| && |ROWS| != |STREAM_ID| && |TOTAL_ROWS| != |STREAM_ID|;
    ResultOfReply(initial, complete, rows, ROWS);
    ResultOfReply(initial, complete, rows, STREAM_ID);
    ResultOfReply(initial, complete, rows, TOTAL_ROWS);
  }
}
