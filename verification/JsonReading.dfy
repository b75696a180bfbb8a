/**
 A reader of JSON text and of UTF-8, written from section 2 to 7 of RFC 8259 and section 3 of
 RFC 3629, and the proof that it reads back what the encoder of JsonText and JsonValues writes.
 */
module JsonReading {
  import opened Options
  import opened JsonText
  import opened JsonValues

  // ------------------------------------------------------------------------- UTF-8

  /** A character of n bytes: the bytes after the first are continuation bytes. */
  predicate Continues(b: seq<Byte>, n: nat) {
    |b| >= n && forall i :: 1 <= i < n ==> 0x80 <= b[i] < 0xC0
  }

  /** The code units of a byte sequence; reading stops where no character starts. */
  function ReadUtf8(b: seq<Byte>): seq<Unit> {
    if b == [] then []
    else if b[0] < 0x80 then [b[0]] + ReadUtf8(b[1..])
    else if 0xC0 <= b[0] < 0xE0 && Continues(b, 2) then
      [CodePoint(0, 0, b[0] - 0xC0, b[1] - 0x80)] + ReadUtf8(b[2..])
    else if 0xE0 <= b[0] < 0xF0 && Continues(b, 3) then
      [CodePoint(0, b[0] - 0xE0, b[1] - 0x80, b[2] - 0x80)] + ReadUtf8(b[3..])
    else if 0xF0 <= b[0] < 0xF5 && Continues(b, 4) then
      Surrogates(CodePoint(b[0] - 0xF0, b[1] - 0x80, b[2] - 0x80, b[3] - 0x80)) + ReadUtf8(b[4..])
    else []
  }

  function CodePoint(a: int, b: int, c: int, d: int): int {
    a * 262144 + b * 4096 + c * 64 + d
  }

  /** The pair that stands for a character beyond the first plane. */
  function Surrogates(cp: int): seq<Unit> {
    if 0x1_0000 <= cp <= 0x10_FFFF
    then [0xD800 + (cp - 0x1_0000) / 0x400, 0xDC00 + (cp - 0x1_0000) % 0x400] else []
  }

  lemma ReadUnit(c: Unit, rest: seq<Byte>)
    requires !IsHigh(c) && !IsLow(c)
    ensures ReadUtf8(EncodeUnit(c) + rest) == [c] + ReadUtf8(rest)
  {
    var b := EncodeUnit(c) + rest;
    assert b[|EncodeUnit(c)|..] == rest;
  }

  lemma CodePointOf(cp: int)
    ensures CodePoint(cp / 262144, cp / 4096 % 64, cp / 64 % 64, cp % 64) == cp
  {
    var b := cp / 64;
    assert b / 64 == cp / 4096;
    var a := b / 64;
    assert a / 64 == cp / 262144;
    assert cp == b * 64 + cp % 64 && b == a * 64 + b % 64 && a == a / 64 * 64 + a % 64;
  }

  lemma SurrogatesOf(hi: Unit, lo: Unit)
    requires IsHigh(hi) && IsLow(lo)
    ensures Surrogates(0x1_0000 + (hi - 0xD800) * 0x400 + (lo - 0xDC00)) == [hi, lo]
  {
  }

  lemma ReadFour(b: seq<Byte>, p: int, q: int, r: int, s: int)
    requires |b| >= 4 && 0 <= p < 5 && 0 <= q < 64 && 0 <= r < 64 && 0 <= s < 64
    requires b[0] == 0xF0 + p && b[1] == 0x80 + q && b[2] == 0x80 + r && b[3] == 0x80 + s
    ensures ReadUtf8(b) == Surrogates(CodePoint(p, q, r, s)) + ReadUtf8(b[4..])
  {
  }

  lemma ReadPair(hi: Unit, lo: Unit, rest: seq<Byte>)
    requires IsHigh(hi) && IsLow(lo)
    ensures ReadUtf8(EncodePair(hi, lo) + rest) == [hi, lo] + ReadUtf8(rest)
  {
    var b := EncodePair(hi, lo) + rest;
    assert b[4..] == rest;
    var cp := 0x1_0000 + (hi - 0xD800) * 0x400 + (lo - 0xDC00);
    ReadFour(b, cp / 262144, cp / 4096 % 64, cp / 64 % 64, cp % 64);
    CodePointOf(cp);
    SurrogatesOf(hi, lo);
  }

  /** A text without lone surrogates is read back from its bytes. */
  lemma {:induction false} Utf8ReadsBack(s: seq<Unit>)
    requires WellFormed(s)
    ensures ReadUtf8(Utf8(s)) == s
    decreases |s|
  {
    if s == [] {
    } else if StartsPair(s) {
      Utf8ReadsBack(s[2..]);
      ReadPair(s[0], s[1], Utf8(s[2..]));
      assert s == [s[0], s[1]] + s[2..];
    } else {
      Utf8ReadsBack(s[1..]);
      ReadUnit(s[0], Utf8(s[1..]));
      assert s == [s[0]] + s[1..];
    }
  }

  // ----------------------------------------------------------------------- strings

  datatype Read<T> = Read(value: T, rest: seq<Unit>)

  function HexValue(c: Unit): (n: Option<nat>)
    ensures n.Some? ==> n.value < 16
  {
    if 0x30 <= c <= 0x39 then Some(c - 0x30)
    else if 0x61 <= c <= 0x66 then Some(c - 0x61 + 10)
    else if 0x41 <= c <= 0x46 then Some(c - 0x41 + 10)
    else None
  }

  function FourHex(a: nat, b: nat, c: nat, d: nat): Unit
    requires a < 16 && b < 16 && c < 16 && d < 16
  {
    a * 4096 + b * 256 + c * 16 + d
  }

  /** What a letter after a backslash stands for. */
  function EscapedUnit(letter: Unit): Option<Unit> {
    match letter
    case 0x22 => Some(0x22)
    case 0x5C => Some(0x5C)
    case 0x2F => Some(0x2F)
    case 0x62 => Some(0x08)
    case 0x66 => Some(0x0C)
    case 0x6E => Some(0x0A)
    case 0x72 => Some(0x0D)
    case 0x74 => Some(0x09)
    case _ => None
  }

  /** The first unit of a string's text, escapes resolved, and what follows it. */
  function ReadOne(t: seq<Unit>): (r: Option<Read<Unit>>)
    ensures r.Some? ==> |r.value.rest| < |t|
  {
    if t == [] || t[0] == 0x22 || t[0] < 0x20 then None
    else if t[0] != 0x5C then Some(Read(t[0], t[1..]))
    else if |t| >= 6 && t[1] == 0x75 && (forall i :: 2 <= i < 6 ==> HexValue(t[i]).Some?) then
      Some(Read(FourHex(HexValue(t[2]).value, HexValue(t[3]).value, HexValue(t[4]).value, HexValue(t[5]).value),
                t[6..]))
    else if |t| >= 2 && EscapedUnit(t[1]).Some? then Some(Read(EscapedUnit(t[1]).value, t[2..]))
    else None
  }

  /** The text of a string up to its closing quote. */
  function ReadString(t: seq<Unit>): (r: Option<Read<seq<Unit>>>)
    ensures r.Some? ==> |r.value.rest| < |t|
    decreases |t|
  {
    if t != [] && t[0] == 0x22 then Some(Read([], t[1..])) else
    match ReadOne(t)
    case None => None
    case Some(one) =>
      match ReadString(one.rest)
      case None => None
      case Some(more) => Some(Read([one.value] + more.value, more.rest))
  }

  /** The text that `Escape` gives one unit that starts no pair. */
  function EscapeUnit(c: Unit): seq<Unit> {
    if ShortEscape(c) != 0 then [BACKSLASH, ShortEscape(c)]
    else if c < 0x20 || IsHigh(c) || IsLow(c) then UnicodeEscape(c)
    else [c]
  }

  lemma HexOf(c: Unit)
    ensures FourHex(c / 4096, c / 256 % 16, c / 16 % 16, c % 16) == c
  {
    var b := c / 16;
    assert b / 16 == c / 256;
    var a := b / 16;
    assert a / 16 == c / 4096;
    assert c == b * 16 + c % 16 && b == a * 16 + b % 16 && a == a / 16 * 16 + a % 16;
  }

  lemma ReadFourHex(t: seq<Unit>, p: nat, q: nat, r: nat, s: nat)
    requires p < 16 && q < 16 && r < 16 && s < 16 && |t| >= 6 && t[0] == BACKSLASH && t[1] == 0x75
    requires t[2] == HexDigit(p) && t[3] == HexDigit(q) && t[4] == HexDigit(r) && t[5] == HexDigit(s)
    ensures ReadOne(t) == Some(Read(FourHex(p, q, r, s), t[6..]))
  {
    HexBack(p);
    HexBack(q);
    HexBack(r);
    HexBack(s);
  }

  lemma ReadEscapeUnit(c: Unit, rest: seq<Unit>)
    ensures ReadOne(EscapeUnit(c) + rest) == Some(Read(c, rest))
  {
    var t := EscapeUnit(c) + rest;
    assert t[..|EscapeUnit(c)|] == EscapeUnit(c) && t[|EscapeUnit(c)|..] == rest;
    if ShortEscape(c) == 0 && (c < 0x20 || IsHigh(c) || IsLow(c)) {
      ReadFourHex(t, c / 4096, c / 256 % 16, c / 16 % 16, c % 16);
      HexOf(c);
    }
  }

  lemma HexBack(n: int)
    requires 0 <= n < 16
    ensures HexValue(HexDigit(n)) == Some(n)
  {
  }

  /** One unit more in front of a string that is read back. */
  lemma ReadStringStep(t: seq<Unit>, c: Unit, after: seq<Unit>, s: seq<Unit>, rest: seq<Unit>)
    requires ReadOne(t) == Some(Read(c, after)) && ReadString(after) == Some(Read(s, rest))
    ensures ReadString(t) == Some(Read([c] + s, rest))
  {
  }

  /** Every string is read back from its quoted text, lone surrogates included. */
  lemma {:induction false} StringReadsBack(s: seq<Unit>, rest: seq<Unit>)
    ensures ReadString(Escape(s) + [QUOTE] + rest) == Some(Read(s, rest))
    decreases |s|
  {
    var t := Escape(s) + [QUOTE] + rest;
    if s == [] {
      assert t == [QUOTE] + rest && t[1..] == rest;
    } else if StartsPair(s) {
      StringReadsBack(s[2..], rest);
      PairReadsBack(s, rest);
    } else {
      StringReadsBack(s[1..], rest);
      UnitReadsBack(s, rest);
    }
  }

  /** A unit that needs no escape is read as itself. */
  lemma ReadPlain(c: Unit, after: seq<Unit>)
    requires IsHigh(c) || IsLow(c)
    ensures ReadOne([c] + after) == Some(Read(c, after))
  {
    assert ([c] + after)[1..] == after;
  }

  lemma PairInFront(a: Unit, b: Unit, c: seq<Unit>, d: seq<Unit>, e: seq<Unit>)
    ensures [a, b] + c + d + e == [a] + ([b] + (c + d + e))
  {
  }

  lemma ReadPairOfUnits(a: Unit, b: Unit, after: seq<Unit>, s: seq<Unit>, rest: seq<Unit>)
    requires IsHigh(a) && IsLow(b) && ReadString(after) == Some(Read(s, rest))
    ensures ReadString([a] + ([b] + after)) == Some(Read([a] + ([b] + s), rest))
  {
    ReadPlain(b, after);
    ReadStringStep([b] + after, b, after, s, rest);
    ReadPlain(a, [b] + after);
    ReadStringStep([a] + ([b] + after), a, [b] + after, [b] + s, rest);
  }

  lemma PairReadsBack(s: seq<Unit>, rest: seq<Unit>)
    requires StartsPair(s)
    requires ReadString(Escape(s[2..]) + [QUOTE] + rest) == Some(Read(s[2..], rest))
    ensures ReadString(Escape(s) + [QUOTE] + rest) == Some(Read(s, rest))
  {
    assert s[..2] == [s[0], s[1]];
    PairInFront(s[0], s[1], Escape(s[2..]), [QUOTE], rest);
    ReadPairOfUnits(s[0], s[1], Escape(s[2..]) + [QUOTE] + rest, s[2..], rest);
    assert s == [s[0]] + ([s[1]] + s[2..]);
  }

  lemma UnitReadsBack(s: seq<Unit>, rest: seq<Unit>)
    requires s != [] && !StartsPair(s)
    requires ReadString(Escape(s[1..]) + [QUOTE] + rest) == Some(Read(s[1..], rest))
    ensures ReadString(Escape(s) + [QUOTE] + rest) == Some(Read(s, rest))
  {
    var after := Escape(s[1..]) + [QUOTE] + rest;
    assert Escape(s) == EscapeUnit(s[0]) + Escape(s[1..]);
    assert Escape(s) + [QUOTE] + rest == EscapeUnit(s[0]) + after;
    ReadEscapeUnit(s[0], after);
    ReadStringStep(EscapeUnit(s[0]) + after, s[0], after, s[1..], rest);
    assert s == [s[0]] + s[1..];
  }

  // ------------------------------------------------------------------------ values

  /** The length of the number that a text begins with. */
  function NumberLength(t: seq<Unit>): (n: nat)
    ensures n <= |t|
  {
    if t == [] || !NumberUnit(t[0]) then 0 else 1 + NumberLength(t[1..])
  }

  lemma {:induction false} NumberEnds(text: seq<Unit>, rest: seq<Unit>)
    requires (forall i :: 0 <= i < |text| ==> NumberUnit(text[i])) && (rest == [] || !NumberUnit(rest[0]))
    ensures NumberLength(text + rest) == |text|
  {
    if text == [] {
      assert text + rest == rest;
    } else {
      assert (text + rest)[1..] == text[1..] + rest;
      NumberEnds(text[1..], rest);
    }
  }

  /** A value and what follows it. A number is kept as its text, an object in the order of the text. */
  function ReadValue(t: seq<Unit>): (r: Option<Read<Json>>)
    ensures r.Some? ==> |r.value.rest| < |t|
    decreases |t|, 1
  {
    if t == [] then None
    else if U("null") <= t then Some(Read(Null, t[4..]))
    else if U("true") <= t then Some(Read(Bool(true), t[4..]))
    else if U("false") <= t then Some(Read(Bool(false), t[5..]))
    else if t[0] == 0x22 then
      match ReadString(t[1..])
      case None => None
      case Some(s) => Some(Read(Str(s.value), s.rest))
    else if t[0] == 0x5B then
      if |t| >= 2 && t[1] == 0x5D then Some(Read(Arr([]), t[2..])) else
      match ReadItems(t[1..])
      case None => None
      case Some(items) => Some(Read(Arr(items.value), items.rest))
    else if t[0] == 0x7B then
      if |t| >= 2 && t[1] == 0x7D then Some(Read(Obj([]), t[2..])) else
      match ReadFields(t[1..])
      case None => None
      case Some(fields) => Some(Read(Obj(fields.value), fields.rest))
    else
      var n := NumberLength(t);
      if Numeral(t[..n]) then Some(Read(Num(OtherFinite(t[..n])), t[n..])) else None
  }

  /** One or more values between commas, and the bracket that closes them. */
  function ReadItems(t: seq<Unit>): (r: Option<Read<seq<Json>>>)
    ensures r.Some? ==> |r.value.rest| < |t|
    decreases |t|, 2
  {
    match ReadValue(t)
    case None => None
    case Some(v) =>
      if v.rest == [] then None
      else if v.rest[0] == 0x5D then Some(Read([v.value], v.rest[1..]))
      else if v.rest[0] != 0x2C then None else
      match ReadItems(v.rest[1..])
      case None => None
      case Some(more) => Some(Read([v.value] + more.value, more.rest))
  }

  /** A quoted name, a colon and a value. */
  function ReadField(t: seq<Unit>): (r: Option<Read<Field>>)
    ensures r.Some? ==> |r.value.rest| < |t|
    decreases |t|, 1
  {
    if t == [] || t[0] != 0x22 then None else
    match ReadString(t[1..])
    case None => None
    case Some(name) =>
      if name.rest == [] || name.rest[0] != 0x3A then None else
      match ReadValue(name.rest[1..])
      case None => None
      case Some(v) => Some(Read(Field(name.value, v.value), v.rest))
  }

  /** One or more properties between commas, and the brace that closes them. */
  function ReadFields(t: seq<Unit>): (r: Option<Read<seq<Field>>>)
    ensures r.Some? ==> |r.value.rest| < |t|
    decreases |t|, 2
  {
    match ReadField(t)
    case None => None
    case Some(f) =>
      if f.rest == [] then None
      else if f.rest[0] == 0x7D then Some(Read([f.value], f.rest[1..]))
      else if f.rest[0] != 0x2C then None else
      match ReadFields(f.rest[1..])
      case None => None
      case Some(more) => Some(Read([f.value] + more.value, more.rest))
  }

  // --------------------------------------------------------------- the round trip

  /** What a value is once it went through text: numbers as text, what is not finite as null. */
  function AsRead(v: Json): Json {
    match v
    case Num(NotFinite) => Null
    case Num(n) => NumberTextIsNumeral(n); Num(OtherFinite(NumberText(n)))
    case Arr(items) => Arr(ItemsAsRead(items))
    case Obj(fields) => Obj(FieldsAsRead(fields))
    case _ => v
  }

  function ItemsAsRead(items: seq<Json>): seq<Json> {
    if items == [] then [] else [AsRead(items[0])] + ItemsAsRead(items[1..])
  }

  function FieldsAsRead(fields: seq<Field>): seq<Field> {
    if fields == [] then []
    else [Field(fields[0].name, AsRead(fields[0].value))] + FieldsAsRead(fields[1..])
  }

  lemma {:induction false} DigitsAreDigits(n: nat)
    ensures |Digits(n)| > 0 && AllDigits(Digits(n)) && DigitsValue(Digits(n)) == n
    ensures Digits(n)[0] == 0x30 ==> n == 0
  {
    if n >= 10 {
      DigitsAreDigits(n / 10);
      assert Digits(n)[..|Digits(n)| - 1] == Digits(n / 10);
    } else {
      assert Digits(n)[..0] == [];
    }
  }

  lemma NumberTextIsNumeral(n: Number)
    requires !n.NotFinite?
    ensures Numeral(NumberText(n))
  {
    if n.SafeInt? {
      DigitsAreDigits(if n.value < 0 then -n.value else n.value);
    }
  }

  /** The value that the decimal text of an integer stands for. */
  lemma IntegerReadsBack(v: int)
    ensures var t := NumberText(SafeInt(v));
      if v < 0 then t[0] == 0x2D && AllDigits(t[1..]) && DigitsValue(t[1..]) == -v
      else AllDigits(t) && DigitsValue(t) == v
  {
    DigitsAreDigits(if v < 0 then -v else v);
    assert v < 0 ==> NumberText(SafeInt(v))[1..] == Digits(-v);
  }

  /** The text ends where a number would end. */
  predicate Ends(rest: seq<Unit>) {
    rest == [] || !NumberUnit(rest[0])
  }

  /** No value begins like the end of a list. */
  lemma FirstUnit(v: Json)
    ensures |Stringify(v)| > 0 && Stringify(v)[0] != 0x5D && Stringify(v)[0] != 0x7D
  {
    if v.Num? && !v.n.NotFinite? { NumberTextIsNumeral(v.n); }
  }

  lemma Words()
    ensures U("null") == NULL_TEXT && U("true") == TRUE_TEXT && U("false") == FALSE_TEXT
  {
  }

  lemma NumberReadsBack(n: Number, rest: seq<Unit>)
    requires !n.NotFinite? && Ends(rest)
    ensures ReadValue(NumberText(n) + rest) == Some(Read(AsRead(Num(n)), rest))
  {
    NumberTextIsNumeral(n);
    var text := NumberText(n);
    var t := text + rest;
    NumberEnds(text, rest);
    assert t[0] == text[0] && t[..|text|] == text && t[|text|..] == rest;
    Words();
  }

  /** Main result. The text of every value is read back as that value, whatever text follows it. */
  lemma {:induction false} ValueReadsBack(v: Json, rest: seq<Unit>)
    requires Ends(rest)
    ensures ReadValue(Stringify(v) + rest) == Some(Read(AsRead(v), rest))
    decreases v, 2
  {
    match v
    case Null => WordReadsBack(v, rest);
    case Bool(_) => WordReadsBack(v, rest);
    case Num(n) => if n.NotFinite? { WordReadsBack(v, rest); } else { NumberReadsBack(n, rest); }
    case Str(s) =>
      StringReadsBack(s, rest);
      QuoteOpens(Stringify(v) + rest, s, rest);
    case Arr(items) => ArrayReadsBack(items, rest);
    case Obj(fields) => ObjectReadsBack(fields, rest);
  }

  lemma QuoteOpens(t: seq<Unit>, s: seq<Unit>, rest: seq<Unit>)
    requires t == Quote(s) + rest && ReadString(Escape(s) + [QUOTE] + rest) == Some(Read(s, rest))
    ensures ReadValue(t) == Some(Read(Str(s), rest))
  {
    Words();
    assert t[0] == QUOTE && t[1..] == Escape(s) + [QUOTE] + rest;
  }

  lemma WordReadsBack(v: Json, rest: seq<Unit>)
    requires v.Null? || v.Bool? || v == Num(NotFinite)
    ensures ReadValue(Stringify(v) + rest) == Some(Read(AsRead(v), rest))
  {
    var word := Stringify(v);
    var t := word + rest;
    Words();
    assert t[0] == word[0] && t[|word|..] == rest;
    assert word <= t;
  }

  lemma BracketOpens(t: seq<Unit>, items: seq<Json>, rest: seq<Unit>)
    requires |t| >= 2 && t[0] == 0x5B && t[1] != 0x5D && ReadItems(t[1..]) == Some(Read(items, rest))
    ensures ReadValue(t) == Some(Read(Arr(items), rest))
  {
    Words();
  }

  lemma EmptyArray(t: seq<Unit>)
    requires |t| >= 2 && t[0] == 0x5B && t[1] == 0x5D
    ensures ReadValue(t) == Some(Read(Arr([]), t[2..]))
  {
    Words();
  }

  lemma {:induction false} ArrayReadsBack(items: seq<Json>, rest: seq<Unit>)
    ensures ReadValue(Stringify(Arr(items)) + rest) == Some(Read(AsRead(Arr(items)), rest))
    decreases items, 3
  {
    var t := Stringify(Arr(items)) + rest;
    var body := StringifyItems(items) + [0x5D] + rest;
    assert t == [0x5B] + body && t[1..] == body;
    if items == [] {
      assert body == [0x5D] + rest && t[2..] == rest;
      EmptyArray(t);
    } else {
      ItemsReadBack(items, rest);
      FirstUnit(items[0]);
      assert t[1] == body[0] == Stringify(items[0])[0];
      BracketOpens(t, ItemsAsRead(items), rest);
    }
  }

  /** The last value of a list, and one with others after it. */
  lemma LastItem(t: seq<Unit>, v: Json, rest: seq<Unit>)
    requires ReadValue(t) == Some(Read(v, [0x5D] + rest))
    ensures ReadItems(t) == Some(Read([v], rest))
  {
    assert ([0x5D] + rest)[1..] == rest;
  }

  lemma NextItem(t: seq<Unit>, v: Json, more: seq<Unit>, items: seq<Json>, rest: seq<Unit>)
    requires ReadValue(t) == Some(Read(v, [COMMA] + more)) && ReadItems(more) == Some(Read(items, rest))
    ensures ReadItems(t) == Some(Read([v] + items, rest))
  {
    assert ([COMMA] + more)[1..] == more;
  }

  lemma {:induction false} ItemsReadBack(items: seq<Json>, rest: seq<Unit>)
    requires items != []
    ensures ReadItems(StringifyItems(items) + [0x5D] + rest) == Some(Read(ItemsAsRead(items), rest))
    decreases items, 2
  {
    var t := StringifyItems(items) + [0x5D] + rest;
    if |items| == 1 {
      assert StringifyItems(items[1..]) == [] && StringifyItems(items) == Stringify(items[0]);
      assert t == Stringify(items[0]) + ([0x5D] + rest);
      ValueReadsBack(items[0], [0x5D] + rest);
      LastItem(t, AsRead(items[0]), rest);
      assert ItemsAsRead(items[1..]) == [] && ItemsAsRead(items) == [AsRead(items[0])];
    } else {
      var more := StringifyItems(items[1..]) + [0x5D] + rest;
      Regroup(Stringify(items[0]), [COMMA], StringifyItems(items[1..]), [0x5D], rest);
      ValueReadsBack(items[0], [COMMA] + more);
      ItemsReadBack(items[1..], rest);
      NextItem(t, AsRead(items[0]), more, ItemsAsRead(items[1..]), rest);
    }
  }

  lemma BraceOpens(t: seq<Unit>, fields: seq<Field>, rest: seq<Unit>)
    requires |t| >= 2 && t[0] == 0x7B && t[1] != 0x7D && ReadFields(t[1..]) == Some(Read(fields, rest))
    ensures ReadValue(t) == Some(Read(Obj(fields), rest))
  {
    Words();
  }

  lemma EmptyObject(t: seq<Unit>)
    requires |t| >= 2 && t[0] == 0x7B && t[1] == 0x7D
    ensures ReadValue(t) == Some(Read(Obj([]), t[2..]))
  {
    Words();
  }

  function FieldText(f: Field): (t: seq<Unit>)
    ensures |t| > 0 && t[0] == QUOTE
  {
    Quote(f.name) + [COLON] + Stringify(f.value)
  }

  lemma Regroup(a: seq<Unit>, b: seq<Unit>, c: seq<Unit>, d: seq<Unit>, e: seq<Unit>)
    ensures a + b + c + d + e == a + (b + (c + d + e))
  {
  }

  lemma LastFieldText(fields: seq<Field>, rest: seq<Unit>)
    requires |fields| == 1
    ensures StringifyFields(fields) + [0x7D] + rest == FieldText(fields[0]) + ([0x7D] + rest)
  {
    assert StringifyFields(fields[1..]) == [];
    assert StringifyFields(fields) == FieldText(fields[0]);
  }

  lemma NextFieldText(fields: seq<Field>, rest: seq<Unit>)
    requires |fields| > 1
    ensures StringifyFields(fields) + [0x7D] + rest
         == FieldText(fields[0]) + ([COMMA] + (StringifyFields(fields[1..]) + [0x7D] + rest))
  {
    var tail := StringifyFields(fields[1..]);
    Regroup(FieldText(fields[0]), [COMMA], tail, [0x7D], rest);
  }

  lemma {:induction false} ObjectReadsBack(fields: seq<Field>, rest: seq<Unit>)
    ensures ReadValue(Stringify(Obj(fields)) + rest) == Some(Read(AsRead(Obj(fields)), rest))
    decreases fields, 3
  {
    var t := Stringify(Obj(fields)) + rest;
    var body := StringifyFields(fields) + [0x7D] + rest;
    assert t == [0x7B] + body && t[1..] == body;
    if fields == [] {
      assert body == [0x7D] + rest && t[2..] == rest;
      EmptyObject(t);
    } else {
      FieldsReadBack(fields, rest);
      if |fields| == 1 { LastFieldText(fields, rest); } else { NextFieldText(fields, rest); }
      assert t[1] == body[0] == QUOTE;
      BraceOpens(t, FieldsAsRead(fields), rest);
    }
  }

  lemma ReadFieldStep(t: seq<Unit>, name: seq<Unit>, after: seq<Unit>, v: Json, rest: seq<Unit>)
    requires t != [] && t[0] == 0x22 && ReadString(t[1..]) == Some(Read(name, [COLON] + after))
    requires ReadValue(after) == Some(Read(v, rest))
    ensures ReadField(t) == Some(Read(Field(name, v), rest))
  {
    assert ([COLON] + after)[1..] == after;
  }

  lemma FieldInFront(a: seq<Unit>, b: seq<Unit>, c: seq<Unit>, rest: seq<Unit>)
    ensures [QUOTE] + a + [QUOTE] + b + c + rest == [QUOTE] + (a + [QUOTE] + (b + (c + rest)))
  {
  }

  lemma {:induction false} FieldReadsBack(f: Field, rest: seq<Unit>)
    requires Ends(rest)
    ensures ReadField(FieldText(f) + rest) == Some(Read(Field(f.name, AsRead(f.value)), rest))
    decreases f, 3
  {
    var after := Stringify(f.value) + rest;
    var body := Escape(f.name) + [QUOTE] + ([COLON] + after);
    FieldInFront(Escape(f.name), [COLON], Stringify(f.value), rest);
    assert ([QUOTE] + body)[1..] == body;
    StringReadsBack(f.name, [COLON] + after);
    ValueReadsBack(f.value, rest);
    ReadFieldStep([QUOTE] + body, f.name, after, AsRead(f.value), rest);
  }

  /** The last property, and one with others after it. */
  lemma LastField(t: seq<Unit>, f: Field, rest: seq<Unit>)
    requires ReadField(t) == Some(Read(f, [0x7D] + rest))
    ensures ReadFields(t) == Some(Read([f], rest))
  {
    assert ([0x7D] + rest)[1..] == rest;
  }

  lemma NextField(t: seq<Unit>, f: Field, more: seq<Unit>, fields: seq<Field>, rest: seq<Unit>)
    requires ReadField(t) == Some(Read(f, [COMMA] + more)) && ReadFields(more) == Some(Read(fields, rest))
    ensures ReadFields(t) == Some(Read([f] + fields, rest))
  {
    assert ([COMMA] + more)[1..] == more;
  }

  lemma {:induction false} FieldsReadBack(fields: seq<Field>, rest: seq<Unit>)
    requires fields != []
    ensures ReadFields(StringifyFields(fields) + [0x7D] + rest) == Some(Read(FieldsAsRead(fields), rest))
    decreases fields, 2
  {
    var f := Field(fields[0].name, AsRead(fields[0].value));
    var t := StringifyFields(fields) + [0x7D] + rest;
    if |fields| == 1 {
      LastFieldText(fields, rest);
      FieldReadsBack(fields[0], [0x7D] + rest);
      LastField(t, f, rest);
      assert FieldsAsRead(fields[1..]) == [] && FieldsAsRead(fields) == [f];
    } else {
      var more := StringifyFields(fields[1..]) + [0x7D] + rest;
      NextFieldText(fields, rest);
      FieldReadsBack(fields[0], [COMMA] + more);
      FieldsReadBack(fields[1..], rest);
      NextField(t, f, more, FieldsAsRead(fields[1..]), rest);
    }
  }

  /** The bytes on the wire, whose number is the size that limits compare, read back as the value. */
  lemma WireReadsBack(v: Json)
    ensures var bytes := Utf8(Stringify(v));
      |bytes| == Size(v) && ReadValue(ReadUtf8(bytes)) == Some(Read(AsRead(v), []))
  {
    SizeIsEncodedSize(v);
    Utf8ReadsBack(Stringify(v));
    ValueReadsBack(v, []);
    assert Stringify(v) + [] == Stringify(v);
  }
}
