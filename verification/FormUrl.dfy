/**
 * Names and values written as one query and read back: UTF-8, and application/x-www-form-urlencoded as section 5
 * of the WHATWG URL Standard has it.
 */
module FormUrl {
  import opened Wrappers

  // ---------------------------------------------------------------- UTF-8

  function EncodeChar(c: char): (bytes: seq<Byte>)
    ensures 1 <= |bytes| <= 4
  {
    var n := c as int;
    if n < 0x80 then [n]
    else if n < 0x800 then [0xC0 + n / 0x40, 0x80 + n % 0x40]
    else if n < 0x10000 then [0xE0 + n / 0x1000, 0x80 + n / 0x40 % 0x40, 0x80 + n % 0x40]
    else [0xF0 + n / 0x40000, 0x80 + n / 0x1000 % 0x40, 0x80 + n / 0x40 % 0x40, 0x80 + n % 0x40]
  }

  function Encode(s: string): seq<Byte> {
    if s == "" then [] else EncodeChar(s[0]) + Encode(s[1..])
  }

  datatype Decoded = Decoded(c: char, used: nat)

  const REPLACEMENT: char := '\U{FFFD}'

  /** The bits a continuation byte at `i` carries, or None. */
  function Continuation(bytes: seq<Byte>, i: nat): (bits: Option<int>)
    ensures bits.Some? ==> 0 <= bits.value < 0x40
  {
    if i < |bytes| && 0x80 <= bytes[i] < 0xC0 then Some(bytes[i] - 0x80) else None
  }

  function CharOf(n: int, least: int, used: nat): (d: Decoded)
    requires used > 0 && least >= 0
    ensures 0 < d.used <= used
  {
    if least <= n < 0xD800 || (least <= n && 0xE000 <= n < 0x110000) then Decoded(n as char, used) else Decoded(REPLACEMENT, 1)
  }

  /** The first character of some bytes; a byte that begins none is replaced. */
  function DecodeChar(bytes: seq<Byte>): (d: Decoded)
    requires bytes != []
    ensures 0 < d.used <= |bytes|
  {
    var lead := bytes[0];
    var a, b, c := Continuation(bytes, 1), Continuation(bytes, 2), Continuation(bytes, 3);
    if lead < 0x80 then Decoded(lead as char, 1)
    else if 0xC0 <= lead < 0xE0 && a.Some? then CharOf((lead - 0xC0) * 0x40 + a.value, 0x80, 2)
    else if 0xE0 <= lead < 0xF0 && a.Some? && b.Some? then
      CharOf((lead - 0xE0) * 0x1000 + a.value * 0x40 + b.value, 0x800, 3)
    else if 0xF0 <= lead < 0xF8 && a.Some? && b.Some? && c.Some? then
      CharOf((lead - 0xF0) * 0x40000 + a.value * 0x1000 + b.value * 0x40 + c.value, 0x10000, 4)
    else Decoded(REPLACEMENT, 1)
  }

  function Decode(bytes: seq<Byte>): string {
    if bytes == [] then ""
    else
      var d := DecodeChar(bytes);
      [d.c] + Decode(bytes[d.used..])
  }

  lemma TwoBytes(n: int)
    requires 0x80 <= n < 0x800
    ensures 0xC0 <= 0xC0 + n / 0x40 < 0xE0 && n == n / 0x40 * 0x40 + n % 0x40
  {
  }

  lemma ThreeBytes(n: int)
    requires 0x800 <= n < 0x10000
    ensures 0xE0 <= 0xE0 + n / 0x1000 < 0xF0 && n == n / 0x1000 * 0x1000 + n / 0x40 % 0x40 * 0x40 + n % 0x40
  {
  }

  lemma FourBytes(n: int)
    requires 0x10000 <= n < 0x110000
    ensures 0xF0 <= 0xF0 + n / 0x40000 < 0xF8
    ensures n == n / 0x40000 * 0x40000 + n / 0x1000 % 0x40 * 0x1000 + n / 0x40 % 0x40 * 0x40 + n % 0x40
  {
  }

  lemma DecodeCharUndoesEncode(c: char, rest: seq<Byte>)
    ensures DecodeChar(EncodeChar(c) + rest) == Decoded(c, |EncodeChar(c)|)
  {
    var n := c as int;
    var bytes := EncodeChar(c) + rest;
    if n < 0x80 {
    } else if n < 0x800 {
      TwoBytes(n);
      assert bytes[0] == 0xC0 + n / 0x40 && bytes[1] == 0x80 + n % 0x40;
    } else if n < 0x10000 {
      ThreeBytes(n);
      assert bytes[0] == 0xE0 + n / 0x1000 && bytes[1] == 0x80 + n / 0x40 % 0x40 && bytes[2] == 0x80 + n % 0x40;
    } else {
      FourBytes(n);
      assert bytes[0] == 0xF0 + n / 0x40000 && bytes[1] == 0x80 + n / 0x1000 % 0x40;
      assert bytes[2] == 0x80 + n / 0x40 % 0x40 && bytes[3] == 0x80 + n % 0x40;
    }
  }

  /** Every string comes back from its bytes. */
  lemma {:induction false} DecodeUndoesEncode(s: string)
    ensures Decode(Encode(s)) == s
  {
    if s != "" {
      var first, rest := EncodeChar(s[0]), Encode(s[1..]);
      DecodeCharUndoesEncode(s[0], rest);
      DecodeUndoesEncode(s[1..]);
      assert (first + rest)[|first|..] == rest;
      assert [s[0]] + s[1..] == s;
    }
  }

  // ---------------------------------------------------------------- percent encoding

  /** Written as itself. */
  predicate Plain(b: Byte) {
    || 0x30 <= b <= 0x39 || 0x41 <= b <= 0x5A || 0x61 <= b <= 0x7A
    || b == 0x2A || b == 0x2D || b == 0x2E || b == 0x5F
  }

  function HexDigit(n: int): (c: char)
    requires 0 <= n < 16
  {
    if n < 10 then ('0' as int + n) as char else ('A' as int + (n - 10)) as char
  }

  function HexValue(c: char): (n: Option<int>)
    ensures n.Some? ==> 0 <= n.value < 16
  {
    if '0' <= c <= '9' then Some(c as int - '0' as int)
    else if 'A' <= c <= 'F' then Some(c as int - 'A' as int + 10)
    else if 'a' <= c <= 'f' then Some(c as int - 'a' as int + 10)
    else None
  }

  function WriteByte(b: Byte): (text: string)
    ensures text != ""
  {
    if b == 0x20 then "+" else if Plain(b) then [b as char] else ['%', HexDigit(b / 16), HexDigit(b % 16)]
  }

  function Write(bytes: seq<Byte>): string {
    if bytes == [] then "" else WriteByte(bytes[0]) + Write(bytes[1..])
  }

  /** The bytes of some text, `+` for a space and percent signs undone where two hex digits follow. */
  function Read(text: string): seq<Byte> {
    if text == "" then []
    else if text[0] == '+' then [0x20] + Read(text[1..])
    else if text[0] == '%' && |text| >= 3 && HexValue(text[1]).Some? && HexValue(text[2]).Some? then
      [HexValue(text[1]).value * 16 + HexValue(text[2]).value] + Read(text[3..])
    else EncodeChar(text[0]) + Read(text[1..])
  }

  lemma ReadByte(b: Byte, rest: string)
    ensures Read(WriteByte(b) + rest) == [b] + Read(rest)
  {
    var text := WriteByte(b) + rest;
    if b == 0x20 || Plain(b) {
      assert text[1..] == rest;
    } else {
      assert text[0] == '%' && text[1] == HexDigit(b / 16) && text[2] == HexDigit(b % 16);
      assert text[3..] == rest;
    }
  }

  lemma {:induction false} ReadAfterWrite(bytes: seq<Byte>, rest: string)
    ensures Read(Write(bytes) + rest) == bytes + Read(rest)
  {
    if bytes == [] {
      assert Write(bytes) + rest == rest;
    } else {
      ReadAfterWrite(bytes[1..], rest);
      assert Write(bytes) + rest == WriteByte(bytes[0]) + (Write(bytes[1..]) + rest);
      ReadByte(bytes[0], Write(bytes[1..]) + rest);
      assert bytes == [bytes[0]] + bytes[1..];
      Associate([bytes[0]], bytes[1..], Read(rest));
    }
  }

  /** What writing never puts in a query but between its fields, nor anywhere white space or a link's end would be seen. */
  predicate Written(c: char) {
    || '0' <= c <= '9' || 'A' <= c <= 'Z' || 'a' <= c <= 'z'
    || c == '*' || c == '-' || c == '.' || c == '_' || c == '+' || c == '%'
  }

  predicate AllWritten(text: string) {
    forall i :: 0 <= i < |text| ==> Written(text[i])
  }

  lemma {:induction false} WriteIsWritten(bytes: seq<Byte>)
    ensures AllWritten(Write(bytes))
  {
    if bytes != [] {
      WriteIsWritten(bytes[1..]);
    }
  }

  // ---------------------------------------------------------------- the query

  datatype Pair = Pair(name: string, value: string)

  function WriteText(s: string): string {
    Write(Encode(s))
  }

  function ReadText(text: string): string {
    Decode(Read(text))
  }

  lemma TextComesBack(s: string)
    ensures ReadText(WriteText(s)) == s
  {
    ReadAfterWrite(Encode(s), "");
    assert WriteText(s) + "" == WriteText(s);
    assert Encode(s) + [] == Encode(s);
    DecodeUndoesEncode(s);
  }

  function WritePair(pair: Pair): string {
    WriteText(pair.name) + "=" + WriteText(pair.value)
  }

  function Form(pairs: seq<Pair>): string {
    if pairs == [] then ""
    else if |pairs| == 1 then WritePair(pairs[0])
    else WritePair(pairs[0]) + "&" + Form(pairs[1..])
  }

  /** Where `c` first stands, or the length. */
  function IndexOf(s: string, c: char): (at: nat)
    ensures at <= |s| && (forall k :: 0 <= k < at ==> s[k] != c) && (at < |s| ==> s[at] == c)
  {
    if s == "" || s[0] == c then 0 else 1 + IndexOf(s[1..], c)
  }

  function ReadPair(piece: string): Pair {
    var at := IndexOf(piece, '=');
    Pair(ReadText(piece[..at]), if at < |piece| then ReadText(piece[at + 1..]) else "")
  }

  /** The pairs of a query: its pieces between `&`, empty ones passed over. */
  function Pairs(query: string): seq<Pair> {
    if query == "" then []
    else
      var at := IndexOf(query, '&');
      (if at == 0 then [] else [ReadPair(query[..at])]) + (if at < |query| then Pairs(query[at + 1..]) else [])
  }

  lemma IndexIs(s: string, c: char, at: nat)
    requires at <= |s| && (forall k :: 0 <= k < at ==> s[k] != c) && (at < |s| ==> s[at] == c)
    ensures IndexOf(s, c) == at
  {
    assert IndexOf(s, c) >= at;
  }

  lemma ReadPairOf(name: string, value: string)
    requires AllWritten(name)
    ensures ReadPair(name + "=" + value) == Pair(ReadText(name), ReadText(value))
  {
    var piece := name + "=" + value;
    assert piece[..|name|] == name && piece[|name| + 1..] == value;
    IndexIs(piece, '=', |name|);
  }

  lemma PairsOfPiece(piece: string)
    requires piece != "" && forall i :: 0 <= i < |piece| ==> piece[i] != '&'
    ensures Pairs(piece) == [ReadPair(piece)]
  {
    IndexIs(piece, '&', |piece|);
    assert piece[..|piece|] == piece;
  }

  lemma PairsOfMore(piece: string, rest: string)
    requires piece != "" && forall i :: 0 <= i < |piece| ==> piece[i] != '&'
    ensures Pairs(piece + "&" + rest) == [ReadPair(piece)] + Pairs(rest)
  {
    var query := piece + "&" + rest;
    assert query[..|piece|] == piece && query[|piece| + 1..] == rest;
    IndexIs(query, '&', |piece|);
  }

  lemma PieceIsWhole(name: string, value: string)
    requires AllWritten(name) && AllWritten(value)
    ensures var piece := name + "=" + value; piece != "" && forall i :: 0 <= i < |piece| ==> piece[i] != '&'
  {
  }

  /** One pair written out, its value by any text that reads as it, comes back. */
  lemma OnePair(pair: Pair, value: string)
    requires AllWritten(value) && ReadText(value) == pair.value
    ensures Pairs(WriteText(pair.name) + "=" + value) == [pair]
    ensures forall rest :: Pairs(WriteText(pair.name) + "=" + value + "&" + rest) == [pair] + Pairs(rest)
  {
    var name := WriteText(pair.name);
    WriteIsWritten(Encode(pair.name));
    TextComesBack(pair.name);
    PieceIsWhole(name, value);
    ReadPairOf(name, value);
    PairsOfPiece(name + "=" + value);
    forall rest
      ensures Pairs(name + "=" + value + "&" + rest) == [pair] + Pairs(rest)
    {
      PairsOfMore(name + "=" + value, rest);
    }
  }

  /** A query whose last value is any text that reads as it. */
  function FormWith(pairs: seq<Pair>, value: string): string
    requires pairs != []
  {
    if |pairs| == 1 then WriteText(pairs[0].name) + "=" + value
    else WritePair(pairs[0]) + "&" + FormWith(pairs[1..], value)
  }

  /** Every list of pairs comes back from its query, however its last value is spelt. */
  lemma {:induction false} PairsUndoForm(pairs: seq<Pair>, value: string)
    requires pairs != [] && AllWritten(value) && ReadText(value) == pairs[|pairs| - 1].value
    ensures Pairs(FormWith(pairs, value)) == pairs
  {
    if |pairs| == 1 {
      OnePair(pairs[0], value);
      assert pairs == [pairs[0]];
    } else {
      TextComesBack(pairs[0].value);
      WriteIsWritten(Encode(pairs[0].value));
      OnePair(pairs[0], WriteText(pairs[0].value));
      PairsUndoForm(pairs[1..], value);
      assert pairs == [pairs[0]] + pairs[1..];
    }
  }
}
