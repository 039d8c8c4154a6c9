/** The text that is hashed for every stored row: compact JSON, encoded as UTF-8. */
module RowFingerprint {
  import opened Wrappers
  import opened Batching

  type Byte = n: int | 0 <= n < 256

  // ---------- json.dumps(row, ensure_ascii=False, separators=(",", ":")) ----------

  function HexDigit(n: nat): char
    requires n < 16
  {
    "0123456789abcdef"[n]
  }

  function EscapeChar(c: char): string {
    if c == '\"' then "\\\""
    else if c == '\\' then "\\\\"
    else if c as int == 8 then "\\b"
    else if c as int == 9 then "\\t"
    else if c as int == 10 then "\\n"
    else if c as int == 12 then "\\f"
    else if c as int == 13 then "\\r"
    else if c as int < 0x20 then "\\u00" + [HexDigit(c as int / 16), HexDigit(c as int % 16)]
    else [c]
  }

  function Escape(s: string): string {
    if s == [] then [] else EscapeChar(s[0]) + Escape(s[1..])
  }

  function Quote(s: string): string {
    ['\"'] + Escape(s) + ['\"']
  }

  /** The elements after the first, each behind a comma. */
  function Tail(row: seq<string>): string {
    if row == [] then [']'] else [','] + Quote(row[0]) + Tail(row[1..])
  }

  function Serialize(row: seq<string>): string {
    if row == [] then ['[', ']'] else ['['] + Quote(row[0]) + Tail(row[1..])
  }

  // ---------- A reader for that text, after sections 5 and 7 of RFC 8259 ----------

  function HexValue(c: char): Option<nat> {
    if '0' <= c <= '9' then Some(c as int - '0' as int)
    else if 'a' <= c <= 'f' then Some(c as int - 'a' as int + 10)
    else if 'A' <= c <= 'F' then Some(c as int - 'A' as int + 10)
    else None
  }

  /** One character of a JSON string and the number of characters it takes; None for a closing quote or an error. */
  function ReadChar(s: string): Option<(char, nat)> {
    if s == [] || s[0] == '\"' || s[0] as int < 0x20 then None
    else if s[0] != '\\' then Some((s[0], 1))
    else if |s| < 2 then None
    else if s[1] == '\"' || s[1] == '\\' || s[1] == '/' then Some((s[1], 2))
    else if s[1] == 'b' then Some((8 as char, 2))
    else if s[1] == 't' then Some((9 as char, 2))
    else if s[1] == 'n' then Some((10 as char, 2))
    else if s[1] == 'f' then Some((12 as char, 2))
    else if s[1] == 'r' then Some((13 as char, 2))
    else if s[1] == 'u' && |s| >= 6 then
      match (HexValue(s[2]), HexValue(s[3]), HexValue(s[4]), HexValue(s[5]))
      case (Some(a), Some(b), Some(c), Some(d)) =>
        var n := ((a * 16 + b) * 16 + c) * 16 + d;
        if n < 0xd800 || 0xe000 <= n < 0x10000 then Some((n as char, 6)) else None
      case _ => None
    else None
  }

  /** The contents of a JSON string up to its closing quote, and what follows that quote. */
  function ReadString(s: string): Option<(string, string)>
    decreases |s|
  {
    if s != [] && s[0] == '\"' then Some(("", s[1..]))
    else
      match ReadChar(s)
      case None => None
      case Some((c, n)) =>
        if n > |s| then None
        else
          match ReadString(s[n..])
          case None => None
          case Some((t, rest)) => Some(([c] + t, rest))
  }

  function ReadTail(s: string): Option<seq<string>>
    decreases |s|
  {
    if s == [']'] then Some([])
    else if |s| < 2 || s[0] != ',' || s[1] != '\"' then None
    else
      match ReadString(s[2..])
      case None => None
      case Some((t, rest)) =>
        if |rest| >= |s| then None
        else
          match ReadTail(rest)
          case None => None
          case Some(ts) => Some([t] + ts)
  }

  function Deserialize(s: string): Option<seq<string>> {
    if s == ['[', ']'] then Some([])
    else if |s| < 2 || s[0] != '[' || s[1] != '\"' then None
    else
      match ReadString(s[2..])
      case None => None
      case Some((t, rest)) =>
        match ReadTail(rest)
        case None => None
        case Some(ts) => Some([t] + ts)
  }

  lemma ReadEscapedChar(c: char, rest: string)
    ensures EscapeChar(c) != [] && EscapeChar(c)[0] != '\"'
    ensures ReadChar(EscapeChar(c) + rest) == Some((c, |EscapeChar(c)|))
  {
    var n := c as int;
    if n < 0x20 && n !in {8, 9, 10, 12, 13} {
      assert HexValue(HexDigit(n / 16)) == Some(n / 16);
      assert HexValue(HexDigit(n % 16)) == Some(n % 16);
    }
  }

  lemma {:induction false} ReadEscaped(s: string, rest: string)
    ensures ReadString(Escape(s) + ['\"'] + rest) == Some((s, rest))
  {
    var text := Escape(s) + ['\"'] + rest;
    if s == [] {
      assert text == ['\"'] + rest;
    } else {
      var after := Escape(s[1..]) + ['\"'] + rest;
      assert text == EscapeChar(s[0]) + after;
      ReadEscapedChar(s[0], after);
      assert text[|EscapeChar(s[0])|..] == after;
      ReadEscaped(s[1..], rest);
      assert [s[0]] + s[1..] == s;
    }
  }

  lemma {:induction false} ReadSerializedTail(row: seq<string>)
    ensures ReadTail(Tail(row)) == Some(row)
  {
    if row != [] {
      var rest := Tail(row[1..]);
      Quotation(',', Escape(row[0]), rest);
      ReadEscaped(row[0], rest);
      ReadSerializedTail(row[1..]);
      assert [row[0]] + row[1..] == row;
    }
  }

  lemma ReadElements(text: string, t: string, rest: string, ts: seq<string>)
    requires |text| >= 2 && text[0] == '[' && text[1] == '\"'
    requires ReadString(text[2..]) == Some((t, rest)) && ReadTail(rest) == Some(ts)
    ensures Deserialize(text) == Some([t] + ts)
  {
  }

  lemma Quotation(c: char, e: string, rest: string)
    ensures var text := [c] + (['\"'] + e + ['\"']) + rest;
            |text| >= 2 && text[0] == c && text[1] == '\"' && text[2..] == e + ['\"'] + rest
  {
  }

  /** The JSON text of a row decodes back to the row. */
  lemma SerializeRoundTrip(row: seq<string>)
    ensures Deserialize(Serialize(row)) == Some(row)
  {
    if row != [] {
      Quotation('[', Escape(row[0]), Tail(row[1..]));
      ReadEscaped(row[0], Tail(row[1..]));
      ReadSerializedTail(row[1..]);
      ReadElements(Serialize(row), row[0], Tail(row[1..]), row[1..]);
      assert [row[0]] + row[1..] == row;
    }
  }

  /**
   * Every character stands for itself except the quotation mark, the backslash and the control
   * characters; these have their two-character escapes where there is one and four lower-case
   * hexadecimal digits otherwise.
   */
  lemma EscapeExactly(c: char)
    ensures c as int >= 32 && c != '\"' && c != '\\' ==> EscapeChar(c) == [c]
    ensures c == '\"' ==> EscapeChar(c) == ['\\', '\"']
    ensures c == '\\' ==> EscapeChar(c) == ['\\', '\\']
    ensures c as int == 8 ==> EscapeChar(c) == ['\\', 'b']
    ensures c as int == 9 ==> EscapeChar(c) == ['\\', 't']
    ensures c as int == 10 ==> EscapeChar(c) == ['\\', 'n']
    ensures c as int == 12 ==> EscapeChar(c) == ['\\', 'f']
    ensures c as int == 13 ==> EscapeChar(c) == ['\\', 'r']
    ensures c as int < 32 && c as int !in {8, 9, 10, 12, 13} ==>
              && |EscapeChar(c)| == 6 && EscapeChar(c)[..4] == ['\\', 'u', '0', '0']
              && LowerHex(EscapeChar(c)[4]) && LowerHex(EscapeChar(c)[5])
              && HexValue(EscapeChar(c)[4]).value * 16 + HexValue(EscapeChar(c)[5]).value == c as int
  {
  }

  predicate LowerHex(c: char) {
    '0' <= c <= '9' || 'a' <= c <= 'f'
  }

  function Escapes(s: string): seq<string> {
    seq(|s|, j requires 0 <= j < |s| => EscapeChar(s[j]))
  }

  /** The elements of a row in their quotation marks, each but the first behind a comma. */
  function Elements(row: seq<string>): seq<string> {
    seq(|row|, i requires 0 <= i < |row| => (if i == 0 then [] else [',']) + (['\"'] + Flatten(Escapes(row[i])) + ['\"']))
  }

  lemma {:induction false} EscapeIsFlat(s: string)
    ensures Escape(s) == Flatten(Escapes(s))
  {
    if s != [] {
      EscapeIsFlat(s[1..]);
      assert Escapes(s) == [EscapeChar(s[0])] + Escapes(s[1..]);
    }
  }

  /** The elements behind the first, each behind a comma. */
  function Others(row: seq<string>): seq<string> {
    seq(|row|, i requires 0 <= i < |row| => [','] + (['\"'] + Flatten(Escapes(row[i])) + ['\"']))
  }

  lemma OthersOfRow(row: seq<string>, first: string)
    requires row != [] && first == [','] + (['\"'] + Flatten(Escapes(row[0])) + ['\"'])
    ensures Flatten(Others(row)) == first + Flatten(Others(row[1..]))
  {
    assert Others(row)[0] == first && Others(row)[1..] == Others(row[1..]);
  }

  lemma Regroup(a: string, b: string, c: string)
    ensures a + (b + c) == a + b + c
  {
  }

  lemma {:induction false} TailIsFlat(row: seq<string>)
    ensures Tail(row) == Flatten(Others(row)) + [']']
  {
    if row == [] {
      assert Others(row) == [];
    } else {
      EscapeIsFlat(row[0]);
      TailIsFlat(row[1..]);
      var first := [','] + (['\"'] + Flatten(Escapes(row[0])) + ['\"']);
      OthersOfRow(row, first);
      assert Tail(row) == first + Tail(row[1..]);
      Regroup(first, Flatten(Others(row[1..])), [']']);
    }
  }

  lemma ElementsOfRow(row: seq<string>, first: string)
    requires row != [] && first == ['\"'] + Flatten(Escapes(row[0])) + ['\"']
    ensures Flatten(Elements(row)) == first + Flatten(Others(row[1..]))
  {
    assert Elements(row)[0] == [] + first == first;
    forall i | 0 < i < |row| ensures Elements(row)[i] == Others(row[1..])[i - 1] { assert row[i] == row[1..][i - 1]; }
    assert Elements(row)[1..] == Others(row[1..]);
  }

  /** The text that is hashed: brackets, quoted elements, commas, and nothing between them. */
  lemma SerializeExactly(row: seq<string>)
    ensures Serialize(row) == ['['] + Flatten(Elements(row)) + [']']
  {
    if row != [] {
      EscapeIsFlat(row[0]);
      TailIsFlat(row[1..]);
      var first := ['\"'] + Flatten(Escapes(row[0])) + ['\"'];
      var rest := Flatten(Others(row[1..]));
      ElementsOfRow(row, first);
      assert Serialize(row) == ['['] + first + (rest + [']']);
      Regroup(['['] + first, rest, [']']);
      Regroup(['['], first, rest);
    }
  }

  // ---------- UTF-8 (section 3 of RFC 3629) ----------

  function EncodeChar(c: char): seq<Byte> {
    var n := c as int;
    if n < 0x80 then [n]
    else if n < 0x800 then [0xc0 + n / 64, 0x80 + n % 64]
    else if n < 0x10000 then [0xe0 + n / 64 / 64, 0x80 + n / 64 % 64, 0x80 + n % 64]
    else [0xf0 + n / 64 / 64 / 64, 0x80 + n / 64 / 64 % 64, 0x80 + n / 64 % 64, 0x80 + n % 64]
  }

  function Utf8(s: string): seq<Byte> {
    if s == [] then [] else EncodeChar(s[0]) + Utf8(s[1..])
  }

  predicate Continuation(b: Byte) {
    0x80 <= b < 0xc0
  }

  /** Every character has the shortest sequence that can hold its code point. */
  lemma EncodeCharExactly(c: char)
    ensures var n, e := c as int, EncodeChar(c);
            && (n < 0x80 ==> |e| == 1 && e[0] as int == n)
            && (0x80 <= n < 0x800 ==>
                 && |e| == 2 && 0xc2 <= e[0] < 0xe0 && Continuation(e[1])
                 && n == (e[0] as int - 0xc0) * 64 + (e[1] as int - 0x80))
            && (0x800 <= n < 0x10000 ==>
                 && |e| == 3 && 0xe0 <= e[0] < 0xf0 && Continuation(e[1]) && Continuation(e[2])
                 && n == ((e[0] as int - 0xe0) * 64 + (e[1] as int - 0x80)) * 64 + (e[2] as int - 0x80))
            && (0x10000 <= n ==>
                 && |e| == 4 && 0xf0 <= e[0] <= 0xf4 && Continuation(e[1]) && Continuation(e[2]) && Continuation(e[3])
                 && n == (((e[0] as int - 0xf0) * 64 + (e[1] as int - 0x80)) * 64 + (e[2] as int - 0x80)) * 64 + (e[3] as int - 0x80))
  {
  }

  function Encodings(s: string): seq<seq<Byte>> {
    seq(|s|, i requires 0 <= i < |s| => EncodeChar(s[i]))
  }

  /** A text is encoded character by character. */
  lemma {:induction false} Utf8Exactly(s: string)
    ensures Utf8(s) == Flatten(Encodings(s))
  {
    if s != [] {
      Utf8Exactly(s[1..]);
      assert Encodings(s) == [EncodeChar(s[0])] + Encodings(s[1..]);
    }
  }

  /** The length of the sequence a first byte announces. */
  function SequenceLength(b: Byte): nat {
    if b < 0x80 then 1 else if b < 0xe0 then 2 else if b < 0xf0 then 3 else 4
  }

  /** The code point of a well-formed sequence. */
  function CodePoint(bs: seq<Byte>): int
    requires bs != [] && SequenceLength(bs[0]) <= |bs|
  {
    var first: int := bs[0];
    if SequenceLength(bs[0]) == 1 then first
    else if SequenceLength(bs[0]) == 2 then Shift(first - 0xc0, bs[1])
    else if SequenceLength(bs[0]) == 3 then Shift(Shift(first - 0xe0, bs[1]), bs[2])
    else Shift(Shift(Shift(first - 0xf0, bs[1]), bs[2]), bs[3])
  }

  /** Appends the six bits of a continuation byte. */
  function Shift(n: int, b: Byte): int {
    n * 64 + b - 0x80
  }

  lemma CodePointOfEncoding(c: char, rest: seq<Byte>)
    ensures EncodeChar(c) != [] && SequenceLength(EncodeChar(c)[0]) == |EncodeChar(c)|
    ensures CodePoint(EncodeChar(c) + rest) == c as int
  {
  }

  lemma {:induction false} Utf8Length(s: string)
    ensures |s| <= |Utf8(s)|
  {
    if s != [] {
      Utf8Length(s[1..]);
    }
  }

  lemma {:induction false} Utf8Injective(s: string, t: string)
    requires Utf8(s) == Utf8(t)
    ensures s == t
  {
    if s != [] && t != [] {
      CodePointOfEncoding(s[0], Utf8(s[1..]));
      CodePointOfEncoding(t[0], Utf8(t[1..]));
      assert s[0] == t[0];
      assert Utf8(s[1..]) == Utf8(s)[|EncodeChar(s[0])|..];
      assert Utf8(t[1..]) == Utf8(t)[|EncodeChar(t[0])|..];
      Utf8Injective(s[1..], t[1..]);
    } else {
      Utf8Empty(s);
      Utf8Empty(t);
    }
  }

  lemma Utf8Empty(s: string)
    ensures Utf8(s) == [] <==> s == []
  {
    Utf8Length(s);
  }

  /** The bytes that go into the row's digest. */
  function HashInput(row: seq<string>): seq<Byte> {
    Utf8(Serialize(row))
  }

  /** Two rows share their hash input exactly when they are the same row. */
  lemma HashInputInjective(row: seq<string>, other: seq<string>)
    ensures HashInput(row) == HashInput(other) <==> row == other
  {
    if HashInput(row) == HashInput(other) {
      Utf8Injective(Serialize(row), Serialize(other));
      SerializeRoundTrip(row);
      SerializeRoundTrip(other);
    }
  }
}
