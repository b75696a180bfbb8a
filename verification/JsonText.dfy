/**
 JSON text as JavaScript makes it, over UTF-16 code units, and its length in UTF-8 bytes:
 the string counter of sql_stream_chunk_codec.ts against the real encoder.
 Escapes follow section 7 of RFC 8259 and section 25.5.2 of ECMA-262 (lone surrogates are
 escaped); UTF-8 follows section 3 of RFC 3629, an unpaired surrogate becoming U+FFFD.
 */
module JsonText {

  type Unit = c: int | 0 <= c < 0x1_0000

  type Byte = b: int | 0 <= b < 0x100

  /** A text literal in code units. */
  function U(s: string): seq<Unit> {
    seq(|s|, i requires 0 <= i < |s| => if s[i] as int < 0x1_0000 then s[i] as int else 0xFFFD)
  }

  predicate IsHigh(c: Unit) {
    0xD800 <= c <= 0xDBFF
  }

  predicate IsLow(c: Unit) {
    0xDC00 <= c <= 0xDFFF
  }

  predicate StartsPair(s: seq<Unit>) {
    |s| >= 2 && IsHigh(s[0]) && IsLow(s[1])
  }

  // ------------------------------------------------------------------------- UTF-8

  function EncodeUnit(c: Unit): seq<Byte>
    requires !IsHigh(c) && !IsLow(c)
  {
    if c < 0x80 then [c]
    else if c < 0x800 then [0xC0 + c / 64, 0x80 + c % 64]
    else [0xE0 + c / 4096, 0x80 + c / 64 % 64, 0x80 + c % 64]
  }

  function EncodePair(hi: Unit, lo: Unit): seq<Byte>
    requires IsHigh(hi) && IsLow(lo)
  {
    var cp := 0x1_0000 + (hi - 0xD800) * 0x400 + (lo - 0xDC00);
    [0xF0 + cp / 262144, 0x80 + cp / 4096 % 64, 0x80 + cp / 64 % 64, 0x80 + cp % 64]
  }

  const REPLACEMENT: seq<Byte> := [0xEF, 0xBF, 0xBD]

  /** The bytes of a string; `Buffer.byteLength` is their number. */
  function Utf8(s: seq<Unit>): seq<Byte> {
    if s == [] then []
    else if StartsPair(s) then EncodePair(s[0], s[1]) + Utf8(s[2..])
    else if IsHigh(s[0]) || IsLow(s[0]) then REPLACEMENT + Utf8(s[1..])
    else EncodeUnit(s[0]) + Utf8(s[1..])
  }

  /** Every surrogate is half of a pair. */
  predicate WellFormed(s: seq<Unit>) {
    if s == [] then true
    else if StartsPair(s) then WellFormed(s[2..])
    else !IsHigh(s[0]) && !IsLow(s[0]) && WellFormed(s[1..])
  }

  /** Bytes of a well-formed text do not depend on what follows it. */
  lemma {:induction false} Utf8Append(a: seq<Unit>, b: seq<Unit>)
    requires WellFormed(a)
    ensures Utf8(a + b) == Utf8(a) + Utf8(b)
    decreases |a|
  {
    if a == [] {
      assert a + b == b;
    } else if StartsPair(a) {
      assert (a + b)[2..] == a[2..] + b;
      Utf8Append(a[2..], b);
    } else {
      assert (a + b)[1..] == a[1..] + b;
      Utf8Append(a[1..], b);
    }
  }

  lemma {:induction false} WellFormedAppend(a: seq<Unit>, b: seq<Unit>)
    requires WellFormed(a) && WellFormed(b)
    ensures WellFormed(a + b)
    decreases |a|
  {
    if a == [] {
      assert a + b == b;
    } else if StartsPair(a) {
      assert (a + b)[2..] == a[2..] + b;
      WellFormedAppend(a[2..], b);
    } else {
      assert (a + b)[1..] == a[1..] + b;
      WellFormedAppend(a[1..], b);
    }
  }

  predicate Ascii(s: seq<Unit>) {
    forall i :: 0 <= i < |s| ==> s[i] < 0x80
  }

  lemma {:induction false} AsciiBytes(s: seq<Unit>)
    requires Ascii(s)
    ensures WellFormed(s) && |Utf8(s)| == |s|
  {
    if s != [] { AsciiBytes(s[1..]); }
  }

  // ------------------------------------------------------------------------ quoting

  const QUOTE: Unit := 0x22
  const BACKSLASH: Unit := 0x5C

  function HexDigit(n: int): Unit
    requires 0 <= n < 16
  {
    if n < 10 then 0x30 + n else 0x61 + (n - 10)
  }

  function UnicodeEscape(c: Unit): seq<Unit> {
    [BACKSLASH, 0x75, HexDigit(c / 4096), HexDigit(c / 256 % 16), HexDigit(c / 16 % 16), HexDigit(c % 16)]
  }

  /** The letter of a two-character escape, or zero. */
  function ShortEscape(c: Unit): Unit {
    if c == 0x08 then 0x62 else if c == 0x09 then 0x74 else if c == 0x0A then 0x6E
    else if c == 0x0C then 0x66 else if c == 0x0D then 0x72
    else if c == QUOTE then QUOTE else if c == BACKSLASH then BACKSLASH else 0
  }

  function Escape(s: seq<Unit>): seq<Unit> {
    if s == [] then []
    else if StartsPair(s) then s[..2] + Escape(s[2..])
    else if ShortEscape(s[0]) != 0 then [BACKSLASH, ShortEscape(s[0])] + Escape(s[1..])
    else if s[0] < 0x20 || IsHigh(s[0]) || IsLow(s[0]) then UnicodeEscape(s[0]) + Escape(s[1..])
    else [s[0]] + Escape(s[1..])
  }

  /** `JSON.stringify` of a string. */
  function Quote(s: seq<Unit>): seq<Unit> {
    [QUOTE] + Escape(s) + [QUOTE]
  }

  lemma {:induction false} EscapeWellFormed(s: seq<Unit>)
    ensures WellFormed(Escape(s))
    decreases |s|
  {
    if s == [] {
    } else if StartsPair(s) {
      EscapeWellFormed(s[2..]);
      assert WellFormed(s[..2]) by { assert s[..2][2..] == []; }
      WellFormedAppend(s[..2], Escape(s[2..]));
    } else {
      EscapeWellFormed(s[1..]);
      if ShortEscape(s[0]) != 0 {
        AsciiBytes([BACKSLASH, ShortEscape(s[0])]);
        WellFormedAppend([BACKSLASH, ShortEscape(s[0])], Escape(s[1..]));
      } else if s[0] < 0x20 || IsHigh(s[0]) || IsLow(s[0]) {
        AsciiBytes(UnicodeEscape(s[0]));
        WellFormedAppend(UnicodeEscape(s[0]), Escape(s[1..]));
      } else {
        WellFormedAppend([s[0]], Escape(s[1..]));
      }
    }
  }

  lemma QuoteWellFormed(s: seq<Unit>)
    ensures WellFormed(Quote(s))
  {
    EscapeWellFormed(s);
    WellFormedAppend([QUOTE], Escape(s));
    WellFormedAppend([QUOTE] + Escape(s), [QUOTE]);
  }

  // -------------------------------------------------------------- the fast counter

  /** A unit at which the scan gives up and encodes for real. */
  predicate NeedsEncoder(c: Unit) {
    c < 0x20 || c == QUOTE || c == BACKSLASH || c == 0x2028 || c == 0x2029
  }

  /** What the scan accepts: nothing to escape, and surrogates only in pairs. */
  predicate Plain(s: seq<Unit>) {
    if s == [] then true
    else if NeedsEncoder(s[0]) then false
    else if IsHigh(s[0]) then |s| >= 2 && IsLow(s[1]) && Plain(s[2..])
    else !IsLow(s[0]) && Plain(s[1..])
  }

  lemma {:induction false} PlainIsItsOwnEscape(s: seq<Unit>)
    requires Plain(s)
    ensures Escape(s) == s && WellFormed(s)
    decreases |s|
  {
    if s == [] {
    } else if IsHigh(s[0]) {
      PlainIsItsOwnEscape(s[2..]);
      assert s == s[..2] + s[2..];
    } else {
      PlainIsItsOwnEscape(s[1..]);
      assert s == [s[0]] + s[1..];
    }
  }

  lemma PlainLength(s: seq<Unit>)
    requires Plain(s)
    ensures |Utf8(Quote(s))| == |Utf8(s)| + 2
  {
    PlainIsItsOwnEscape(s);
    WellFormedAppend([QUOTE], s);
    Utf8Append([QUOTE] + s, [QUOTE]);
    Utf8Append([QUOTE], s);
  }

  /** The scanning counter equals the length of the escaped, quoted UTF-8 encoding. */
  method JsonStringBytes(value: seq<Unit>) returns (n: nat)
    ensures n == |Utf8(Quote(value))|
  {
    var index := 0;
    while index < |value|
      invariant 0 <= index <= |value|
      invariant Plain(value) <==> Plain(value[index..])
    {
      var code := value[index];
      assert value[index..][1..] == value[index + 1..];
      if NeedsEncoder(code) {
        return |Utf8(Quote(value))|;
      }
      if IsHigh(code) {
        if index + 1 < |value| && IsLow(value[index + 1]) {
          assert value[index..][2..] == value[index + 2..];
          index := index + 2;
          continue;
        }
        return |Utf8(Quote(value))|;
      }
      if IsLow(code) {
        return |Utf8(Quote(value))|;
      }
      index := index + 1;
    }
    PlainLength(value);
    return |Utf8(value)| + 2;
  }
}
