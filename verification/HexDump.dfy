// Getting bytes back from a hex dump (e2e/pkg/debug/protobuf.go). The dump side is the format of
// Go's encoding/hex.Dump.
module HexDump {
  import opened Text
  import opened Protobuf

  // ---------------------------------------------------------------------------
  // Parsing
  // ---------------------------------------------------------------------------

  predicate IsHexDigit(c: char) { IsDigit(c) || 'a' <= c <= 'f' || 'A' <= c <= 'F' }

  function HexValue(c: char): (v: nat)
    requires IsHexDigit(c)
    ensures v < 16
  {
    if IsDigit(c) then DigitValue(c)
    else if 'a' <= c <= 'f' then (c - 'a') as nat + 10
    else (c - 'A') as nat + 10
  }

  /** Both cases are read. */
  lemma HexDigitsRead(d: nat)
    requires d < 16
    ensures IsHexDigit("0123456789abcdef"[d]) && HexValue("0123456789abcdef"[d]) == d
    ensures IsHexDigit("0123456789ABCDEF"[d]) && HexValue("0123456789ABCDEF"[d]) == d
  {
  }

  method IsHexDump(s: string) returns (r: bool)
    ensures r <==> |s| >= 10 && (forall i :: 0 <= i < 8 ==> IsHexDigit(s[i])) && s[8] == ' ' && s[9] == ' '
  {
    if |s| < 10 {
      return false;
    }
    for i := 0 to 8
      invariant forall k :: 0 <= k < i ==> IsHexDigit(s[k])
    {
      if !IsHexDigit(s[i]) {
        return false;
      }
    }
    return s[8] == ' ' && s[9] == ' ';
  }

  /** The text before the first `c`, or all of it. */
  function Before(s: string, c: char): string {
    if s == [] || s[0] == c then [] else [s[0]] + Before(s[1..], c)
  }

  /** The byte of a two-digit token; other tokens are ignored. */
  function TokenBytes(t: string): seq<Byte> {
    if |t| == 2 && IsHexDigit(t[0]) && IsHexDigit(t[1]) then [HexValue(t[0]) * 16 + HexValue(t[1])] else []
  }

  function TokensBytes(ts: seq<string>): seq<Byte> {
    if ts == [] then [] else TokenBytes(ts[0]) + TokensBytes(ts[1..])
  }

  function LineBytes(line: string): seq<Byte> {
    if |line| < 10 || line[8] != ' ' || line[9] != ' ' then []
    else TokensBytes(Fields(Before(line[10..], '|')))
  }

  function LinesBytes(lines: seq<string>): seq<Byte> {
    if lines == [] then [] else LineBytes(lines[0]) + LinesBytes(lines[1..])
  }

  function Parse(s: string): seq<Byte> { LinesBytes(Split(s, '\n')) }

  method AppendTokens(result: seq<Byte>, ts: seq<string>) returns (r: seq<Byte>)
    ensures r == result + TokensBytes(ts)
  {
    hide TokenBytes;
    r := result;
    assert ts[0..] == ts;
    for i := 0 to |ts|
      invariant result + TokensBytes(ts) == r + TokensBytes(ts[i..])
    {
      assert ts[i..][1..] == ts[i + 1..];
      var more := TokenBytes(ts[i]);
      Assoc(r, more, TokensBytes(ts[i + 1..]));
      r := r + more;
    }
    assert r + [] == r;
  }

  method ParseHexDump(s: string) returns (result: seq<Byte>)
    ensures result == Parse(s)
  {
    hide TokensBytes, Before, Fields, Split;
    result := [];
    var lines := Split(s, '\n');
    assert lines[0..] == lines && [] + LinesBytes(lines) == LinesBytes(lines);
    for i := 0 to |lines|
      invariant LinesBytes(lines) == result + LinesBytes(lines[i..])
    {
      var line := lines[i];
      assert lines[i..][1..] == lines[i + 1..];
      Assoc(result, LineBytes(line), LinesBytes(lines[i + 1..]));
      if |line| < 10 || line[8] != ' ' || line[9] != ' ' {
        assert result + [] == result;
      } else {
        result := AppendTokens(result, Fields(Before(line[10..], '|')));
      }
    }
    assert result + [] == result;
  }

  // ---------------------------------------------------------------------------
  // Dumping
  // ---------------------------------------------------------------------------

  function HexChar(d: nat): (c: char)
    requires d < 16
    ensures IsHexDigit(c) && HexValue(c) == d
  {
    if d < 10 then DigitChar(d) else 'a' + (d - 10) as char
  }

  function Hex2(b: Byte): string { [HexChar(b / 16), HexChar(b % 16)] }

  /** The offset column: a 32-bit number, most significant byte first. */
  function Offset(n: nat): string {
    Hex2(n / 0x100_0000 % 256) + Hex2(n / 0x1_0000 % 256) + Hex2(n / 0x100 % 256) + Hex2(n % 256)
  }

  /** A gap doubles behind the eighth column and before the text. */
  function Gap(i: nat): string { if i == 7 || i == 15 then "  " else " " }

  /** The hex columns from `i` on, blank where the line has no byte. */
  function Columns(line: seq<Byte>, i: nat): string
    decreases 16 - i
  {
    if i >= 16 then ""
    else (if i < |line| then Hex2(line[i]) else "  ") + Gap(i) + Columns(line, i + 1)
  }

  function Printed(b: Byte): char { if b < 32 || b > 126 then '.' else b as char }

  function TextColumn(line: seq<Byte>): string {
    if line == [] then [] else [Printed(line[0])] + TextColumn(line[1..])
  }

  function DumpLine(line: seq<Byte>, offset: nat): string {
    Offset(offset) + "  " + (Columns(line, 0) + "|" + (TextColumn(line) + "|"))
  }

  function Dump(data: seq<Byte>, offset: nat): string
    decreases |data|
  {
    if data == [] then ""
    else
      var n := if |data| < 16 then |data| else 16;
      DumpLine(data[..n], offset) + "\n" + Dump(data[n..], offset + 16)
  }

  function Hexes(line: seq<Byte>): seq<string> {
    if line == [] then [] else [Hex2(line[0])] + Hexes(line[1..])
  }

  lemma {:induction false} HexesBytes(line: seq<Byte>)
    ensures TokensBytes(Hexes(line)) == line
  {
    if line != [] {
      HexesBytes(line[1..]);
      assert Hexes(line)[1..] == Hexes(line[1..]);
      assert line == [line[0]] + line[1..];
    }
  }

  lemma Hex2IsToken(b: Byte)
    ensures Token(Hex2(b)) && |Hex2(b)| == 2 && '|' !in Hex2(b) && '\n' !in Hex2(b)
  {
    assert IsHexDigit(Hex2(b)[0]) && IsHexDigit(Hex2(b)[1]);
  }

  lemma {:induction false} FieldsOfColumns(line: seq<Byte>, i: nat)
    requires i <= 16 && |line| <= 16
    ensures Fields(Columns(line, i)) == if i < |line| then Hexes(line[i..]) else []
    decreases 16 - i
  {
    hide Fields, Hex2, Spaces;
    if i == 16 {
      NoFields();
    } else {
      var rest := Columns(line, i + 1);
      FieldsOfColumns(line, i + 1);
      GapIsSpaces(i);
      FieldsSkip(Gap(i), rest);
      if i < |line| {
        Hex2IsToken(line[i]);
        Assoc(Hex2(line[i]), Gap(i), rest);
        FieldsToken(Hex2(line[i]), Gap(i) + rest);
        assert line[i..][1..] == line[i + 1..];
      } else {
        Assoc("  ", Gap(i), rest);
        FieldsSkip("  ", Gap(i) + rest);
      }
    }
  }

  lemma GapIsSpaces(i: nat)
    ensures Spaces(Gap(i)) && Spaces("  ") && Gap(i) != "" && IsSpace(Gap(i)[0])
  {
  }

  lemma {:induction false} ColumnsPlain(line: seq<Byte>, i: nat)
    ensures '|' !in Columns(line, i) && '\n' !in Columns(line, i)
    decreases 16 - i
  {
    hide Hex2;
    if i < 16 {
      ColumnsPlain(line, i + 1);
      if i < |line| {
        Hex2IsToken(line[i]);
      }
    }
  }

  lemma {:induction false} BeforeIs(x: string, r: string, c: char)
    requires c !in x
    ensures Before(x + [c] + r, c) == x
  {
    if x != [] {
      assert (x + [c] + r)[1..] == x[1..] + [c] + r;
      BeforeIs(x[1..], r, c);
      assert x == [x[0]] + x[1..];
    }
  }

  lemma OffsetPlain(n: nat)
    ensures |Offset(n)| == 8 && '\n' !in Offset(n) && forall i :: 0 <= i < 8 ==> IsHexDigit(Offset(n)[i])
  {
  }

  lemma {:induction false} TextPlain(line: seq<Byte>)
    ensures '\n' !in TextColumn(line)
  {
    if line != [] {
      TextPlain(line[1..]);
    }
  }

  lemma LineReads(line: seq<Byte>, offset: nat)
    requires |line| <= 16
    ensures LineBytes(DumpLine(line, offset)) == line
  {
    hide Offset, Columns, TextColumn, Fields, TokensBytes;
    OffsetPlain(offset);
    var text := DumpLine(line, offset);
    var tail := Columns(line, 0) + "|" + (TextColumn(line) + "|");
    assert text[8] == ' ' && text[9] == ' ' && text[10..] == tail;
    ColumnsPlain(line, 0);
    BeforeIs(Columns(line, 0), TextColumn(line) + "|", '|');
    FieldsOfColumns(line, 0);
    HexesBytes(line);
    assert line[0..] == line;
    NoHexes(line);
  }

  lemma NoHexes(line: seq<Byte>)
    ensures line == [] ==> Hexes(line) == []
  {
  }

  lemma LinePlain(line: seq<Byte>, offset: nat)
    ensures '\n' !in DumpLine(line, offset)
  {
    hide Offset, Columns, TextColumn;
    OffsetPlain(offset);
    ColumnsPlain(line, 0);
    TextPlain(line);
  }

  /** Every byte string comes back from its dump. */
  lemma {:induction false} DumpRoundTrip(data: seq<Byte>, offset: nat)
    ensures Parse(Dump(data, offset)) == data
    decreases |data|
  {
    hide DumpLine, LineBytes, Split;
    if data == [] {
      EmptyText();
    } else {
      var n := if |data| < 16 then |data| else 16;
      DumpRoundTrip(data[n..], offset + 16);
      LinePlain(data[..n], offset);
      SplitLine(DumpLine(data[..n], offset), Dump(data[n..], offset + 16), '\n');
      LineReads(data[..n], offset);
      assert data == data[..n] + data[n..];
    }
  }

  lemma EmptyText()
    ensures Parse("") == []
  {
    assert Split("", '\n') == [""];
  }

  /** A dump of at least one byte is recognised as one. */
  lemma DumpLooksLikeDump(data: seq<Byte>, offset: nat)
    requires data != []
    ensures var s := Dump(data, offset);
            |s| >= 10 && (forall i :: 0 <= i < 8 ==> IsHexDigit(s[i])) && s[8] == ' ' && s[9] == ' '
  {
    hide Offset, Columns, TextColumn;
    OffsetPlain(offset);
    var n := if |data| < 16 then |data| else 16;
    var line := DumpLine(data[..n], offset);
    assert line[..8] == Offset(offset) && line[8] == ' ' && line[9] == ' ';
    assert forall i :: 0 <= i < 8 ==> line[i] == line[..8][i];
    assert forall i :: 0 <= i < 10 ==> Dump(data, offset)[i] == line[i];
  }
}
