/**
 Decoded JSON values, the text `JSON.stringify` gives them, and its exact size in bytes.
 An object is listed in the order JavaScript enumerates it: array-index names first, ascending,
 then the others in order of creation.
 */
module JsonValues {
  import opened Options
  import opened JsonText

  /** Digits, signs, the point and the exponent. */
  predicate NumberUnit(c: Unit) {
    0x30 <= c <= 0x39 || c == 0x2D || c == 0x2B || c == 0x2E || c == 0x65 || c == 0x45
  }

  /** The text of a number begins with a digit or a minus sign. */
  predicate Numeral(s: seq<Unit>) {
    |s| > 0 && (0x30 <= s[0] <= 0x39 || s[0] == 0x2D) && forall i :: 0 <= i < |s| ==> NumberUnit(s[i])
  }

  type NumeralText = s: seq<Unit> | Numeral(s) witness [0x30]

  /** A decoded number: a safe integer, another finite number with its text, or an overflow. */
  datatype Number = SafeInt(value: int) | OtherFinite(text: NumeralText) | NotFinite

  datatype Json =
    | Null
    | Bool(b: bool)
    | Num(n: Number)
    | Str(s: seq<Unit>)
    | Arr(items: seq<Json>)
    | Obj(fields: seq<Field>)

  datatype Field = Field(name: seq<Unit>, value: Json)

  // --------------------------------------------------------------------- the text

  function Digits(n: nat): seq<Unit> {
    if n < 10 then [0x30 + n] else Digits(n / 10) + [0x30 + n % 10]
  }

  /** `String(value)` of a number. */
  function NumberText(n: Number): seq<Unit> {
    match n
    case SafeInt(v) => if v < 0 then [0x2D] + Digits(-v) else Digits(v)
    case OtherFinite(text) => text
    case NotFinite => NULL_TEXT
  }

  const NULL_TEXT: seq<Unit> := [0x6E, 0x75, 0x6C, 0x6C]
  const TRUE_TEXT: seq<Unit> := [0x74, 0x72, 0x75, 0x65]
  const FALSE_TEXT: seq<Unit> := [0x66, 0x61, 0x6C, 0x73, 0x65]
  const COMMA: Unit := 0x2C
  const COLON: Unit := 0x3A

  function Stringify(v: Json): seq<Unit>
    decreases v, 1
  {
    match v
    case Null => NULL_TEXT
    case Bool(b) => if b then TRUE_TEXT else FALSE_TEXT
    case Num(n) => NumberText(n)
    case Str(s) => Quote(s)
    case Arr(items) => [0x5B] + StringifyItems(items) + [0x5D]
    case Obj(fields) => [0x7B] + StringifyFields(fields) + [0x7D]
  }

  function StringifyItems(items: seq<Json>): seq<Unit>
    decreases items, 0
  {
    if items == [] then []
    else Stringify(items[0]) + Separator(|items|) + StringifyItems(items[1..])
  }

  function StringifyFields(fields: seq<Field>): seq<Unit>
    decreases fields, 0
  {
    if fields == [] then [] else
    Quote(fields[0].name) + [COLON] + Stringify(fields[0].value) + Separator(|fields|) + StringifyFields(fields[1..])
  }

  function Separator(left: nat): seq<Unit> {
    if left > 1 then [COMMA] else []
  }

  // --------------------------------------------------------------------- the size

  /** `Buffer.byteLength(JSON.stringify(v))`: what the wire would carry. */
  function EncodedSize(v: Json): nat {
    |Utf8(Stringify(v))|
  }

  function QuotedSize(s: seq<Unit>): nat {
    |Utf8(Quote(s))|
  }

  /** The same size, added up from the parts. */
  function Size(v: Json): nat
    decreases v, 1
  {
    match v
    case Null => 4
    case Bool(b) => if b then 4 else 5
    case Num(n) => |NumberText(n)|
    case Str(s) => QuotedSize(s)
    case Arr(items) => 2 + ItemsSize(items)
    case Obj(fields) => 2 + FieldsSize(fields)
  }

  function ItemsSize(items: seq<Json>): nat
    decreases items, 0
  {
    if items == [] then 0 else Size(items[0]) + |Separator(|items|)| + ItemsSize(items[1..])
  }

  function FieldsSize(fields: seq<Field>): nat
    decreases fields, 0
  {
    if fields == [] then 0
    else FieldSize(fields[0].name, fields[0].value) + |Separator(|fields|)| + FieldsSize(fields[1..])
  }

  function FieldSize(name: seq<Unit>, value: Json): nat
    decreases value, 2
  {
    QuotedSize(name) + 1 + Size(value)
  }

  lemma {:induction false} DigitsAscii(n: nat)
    ensures Ascii(Digits(n))
  {
    if n >= 10 { DigitsAscii(n / 10); }
  }

  lemma NumberTextAscii(n: Number)
    ensures Ascii(NumberText(n))
  {
    match n
    case SafeInt(v) => if v < 0 { DigitsAscii(-v); } else { DigitsAscii(v); }
    case _ =>
  }

  lemma Concat(a: seq<Unit>, b: seq<Unit>)
    requires WellFormed(a) && WellFormed(b)
    ensures WellFormed(a + b) && |Utf8(a + b)| == |Utf8(a)| + |Utf8(b)|
  {
    Utf8Append(a, b);
    WellFormedAppend(a, b);
  }

  lemma Bracketed(open: Unit, body: seq<Unit>, close: Unit)
    requires open < 0x80 && close < 0x80 && WellFormed(body)
    ensures WellFormed([open] + body + [close]) && |Utf8([open] + body + [close])| == |Utf8(body)| + 2
  {
    AsciiBytes([open]);
    AsciiBytes([close]);
    Concat([open], body);
    Concat([open] + body, [close]);
  }

  /** The summed size is the UTF-8 length of the real text, for every value. */
  lemma {:induction false} SizeIsEncodedSize(v: Json)
    ensures WellFormed(Stringify(v)) && EncodedSize(v) == Size(v)
    decreases v, 1
  {
    match v
    case Null => AsciiBytes(NULL_TEXT);
    case Bool(b) => AsciiBytes(TRUE_TEXT); AsciiBytes(FALSE_TEXT);
    case Num(n) => NumberTextAscii(n); AsciiBytes(NumberText(n));
    case Str(s) => QuoteWellFormed(s);
    case Arr(items) =>
      ItemsSizeIsEncodedSize(items);
      Bracketed(0x5B, StringifyItems(items), 0x5D);
    case Obj(fields) =>
      FieldsSizeIsEncodedSize(fields);
      Bracketed(0x7B, StringifyFields(fields), 0x7D);
  }

  lemma {:induction false} ItemsSizeIsEncodedSize(items: seq<Json>)
    ensures WellFormed(StringifyItems(items)) && |Utf8(StringifyItems(items))| == ItemsSize(items)
    decreases items, 0
  {
    if items != [] {
      var head, sep, tail := Stringify(items[0]), Separator(|items|), StringifyItems(items[1..]);
      SizeIsEncodedSize(items[0]);
      ItemsSizeIsEncodedSize(items[1..]);
      AsciiBytes(sep);
      Concat(head, sep);
      Concat(head + sep, tail);
    }
  }

  lemma {:induction false} FieldsSizeIsEncodedSize(fields: seq<Field>)
    ensures WellFormed(StringifyFields(fields)) && |Utf8(StringifyFields(fields))| == FieldsSize(fields)
    decreases fields, 0
  {
    if fields != [] {
      var name, value := Quote(fields[0].name), Stringify(fields[0].value);
      var sep, tail := Separator(|fields|), StringifyFields(fields[1..]);
      QuoteWellFormed(fields[0].name);
      SizeIsEncodedSize(fields[0].value);
      FieldsSizeIsEncodedSize(fields[1..]);
      AsciiBytes(sep);
      AsciiBytes([COLON]);
      Concat(name, [COLON]);
      Concat(name + [COLON], value);
      Concat(name + [COLON] + value, sep);
      Concat(name + [COLON] + value + sep, tail);
    }
  }

  // ---------------------------------------------------------------------- objects

  function Lookup(fields: seq<Field>, name: seq<Unit>): Option<Json> {
    if fields == [] then None
    else if fields[0].name == name then Some(fields[0].value)
    else Lookup(fields[1..], name)
  }

  function Without(fields: seq<Field>, name: seq<Unit>): seq<Field> {
    if fields == [] then []
    else if fields[0].name == name then Without(fields[1..], name)
    else [fields[0]] + Without(fields[1..], name)
  }

  /** The number an array-index name stands for, or none: `0`, or digits without a leading zero. */
  function ArrayIndex(name: seq<Unit>): Option<nat> {
    if |name| == 0 || |name| > 10 || !AllDigits(name) || (name[0] == 0x30 && |name| > 1) then None
    else if DigitsValue(name) < 0xFFFF_FFFF then Some(DigitsValue(name)) else None
  }

  predicate AllDigits(name: seq<Unit>) {
    forall i :: 0 <= i < |name| ==> 0x30 <= name[i] <= 0x39
  }

  function DigitsValue(name: seq<Unit>): nat
    requires AllDigits(name)
  {
    if name == [] then 0 else DigitsValue(name[..|name| - 1]) * 10 + (name[|name| - 1] - 0x30)
  }

  /** Does a new property `name` come before the existing property `other`? */
  predicate Precedes(name: seq<Unit>, other: seq<Unit>) {
    ArrayIndex(name).Some? && (ArrayIndex(other).None? || ArrayIndex(name).value < ArrayIndex(other).value)
  }

  /** `object[name] = value`: in place when it exists, else where JavaScript enumerates it. */
  function Set(fields: seq<Field>, name: seq<Unit>, value: Json): seq<Field> {
    if Lookup(fields, name).Some? then Replace(fields, name, value) else Insert(fields, Field(name, value))
  }

  function Replace(fields: seq<Field>, name: seq<Unit>, value: Json): seq<Field>
    requires Lookup(fields, name).Some?
  {
    if fields[0].name == name then [Field(name, value)] + fields[1..]
    else [fields[0]] + Replace(fields[1..], name, value)
  }

  function Insert(fields: seq<Field>, f: Field): seq<Field> {
    if fields == [] || Precedes(f.name, fields[0].name) then [f] + fields
    else [fields[0]] + Insert(fields[1..], f)
  }

  lemma {:induction false} InsertSize(fields: seq<Field>, f: Field)
    ensures |Insert(fields, f)| == |fields| + 1
    ensures FieldsSize(Insert(fields, f))
         == FieldsSize(fields) + FieldSize(f.name, f.value) + (if fields == [] then 0 else 1)
  {
    var r := Insert(fields, f);
    if fields == [] || Precedes(f.name, fields[0].name) {
      assert r[1..] == fields;
    } else {
      assert r[1..] == Insert(fields[1..], f);
      InsertSize(fields[1..], f);
    }
  }

  lemma {:induction false} ReplaceSize(fields: seq<Field>, name: seq<Unit>, value: Json)
    requires Lookup(fields, name).Some?
    ensures |Replace(fields, name, value)| == |fields|
    ensures FieldsSize(Replace(fields, name, value)) + Size(Lookup(fields, name).value)
         == FieldsSize(fields) + Size(value)
  {
    var r := Replace(fields, name, value);
    if fields[0].name == name {
      assert r[1..] == fields[1..];
    } else {
      assert r[1..] == Replace(fields[1..], name, value);
      ReplaceSize(fields[1..], name, value);
    }
  }

  lemma {:induction false} LookupInsert(fields: seq<Field>, f: Field, name: seq<Unit>)
    requires Lookup(fields, f.name).None?
    ensures Lookup(Insert(fields, f), name) == if name == f.name then Some(f.value) else Lookup(fields, name)
  {
    var r := Insert(fields, f);
    if fields == [] || Precedes(f.name, fields[0].name) {
      assert r[1..] == fields;
    } else {
      assert r[1..] == Insert(fields[1..], f);
      LookupInsert(fields[1..], f, name);
    }
  }

  lemma {:induction false} LookupReplace(fields: seq<Field>, x: seq<Unit>, value: Json, name: seq<Unit>)
    requires Lookup(fields, x).Some?
    ensures Lookup(Replace(fields, x, value), name) == if name == x then Some(value) else Lookup(fields, name)
  {
    var r := Replace(fields, x, value);
    if fields[0].name == x {
      assert r[1..] == fields[1..];
    } else {
      assert r[1..] == Replace(fields[1..], x, value);
      LookupReplace(fields[1..], x, value, name);
    }
  }

  /** Setting a property changes that property and no other. */
  lemma LookupSet(fields: seq<Field>, x: seq<Unit>, value: Json, name: seq<Unit>)
    ensures Lookup(Set(fields, x, value), name) == if name == x then Some(value) else Lookup(fields, name)
  {
    if Lookup(fields, x).Some? {
      LookupReplace(fields, x, value, name);
    } else {
      LookupInsert(fields, Field(x, value), name);
    }
  }

  lemma {:induction false} LookupWithout(fields: seq<Field>, x: seq<Unit>, name: seq<Unit>)
    ensures Lookup(Without(fields, x), name) == if name == x then None else Lookup(fields, name)
  {
    if fields != [] {
      LookupWithout(fields[1..], x, name);
      if fields[0].name != x {
        assert Without(fields, x)[1..] == Without(fields[1..], x);
      }
    }
  }
}
