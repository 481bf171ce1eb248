/**
 Pixel data printed as C string literals, and the C reader that takes them back:
 octal escapes as in section 6.4.4.4 and the joining of adjacent literals as in
 phase 6 of section 5.1.1.2 of ISO/IEC 9899:2011.
 */
module PngHeader {
  import opened Options

  // ---------------------------------------------------------------- the printer

  const LINE_LIMIT := 80

  function Digit(d: nat): char
    requires d < 8
  {
    "01234567"[d]
  }

  /** The octal digits of a number, without leading zeros. */
  function Octal(n: nat): string {
    if n < 8 then [Digit(n)] else Octal(n / 8) + [Digit(n % 8)]
  }

  function Escape(n: nat): string {
    "\\" + Octal(n)
  }

  // ---------------------------------------------------------------- the reader

  datatype Mode =
    | Outside                         // between literals
    | Inside                          // in a literal
    | Backslash                       // after a backslash
    | InOctal(value: nat, digits: nat) // in an octal escape, which ends after three digits at the latest
    | Malformed

  /** How far the text has been read, and the bytes of the literals closed or begun so far. */
  datatype Reader = Reader(mode: Mode, bytes: seq<int>)

  const Begin := Reader(Outside, [])

  predicate IsOctalDigit(c: char) {
    '0' <= c <= '7'
  }

  function DigitValue(c: char): nat
    requires IsOctalDigit(c)
  {
    c as int - '0' as int
  }

  /** The end of an octal escape: its value must fit a byte. */
  function Flush(r: Reader): Reader {
    if r.mode.InOctal? then
      if r.mode.value < 256 then Reader(Inside, r.bytes + [r.mode.value]) else r.(mode := Malformed)
    else r
  }

  function ReadInside(r: Reader, c: char): Reader {
    if !r.mode.Inside? then r
    else if c == '"' then r.(mode := Outside)
    else if c == '\\' then r.(mode := Backslash)
    else if c == '\n' then r.(mode := Malformed)
    else r.(bytes := r.bytes + [c as int])
  }

  function Read(r: Reader, c: char): Reader {
    match r.mode
    case Outside =>
      if c == ' ' || c == '\n' then r else if c == '"' then r.(mode := Inside) else r.(mode := Malformed)
    case Inside => ReadInside(r, c)
    case Backslash =>
      r.(mode := if IsOctalDigit(c) then InOctal(DigitValue(c), 1) else Malformed)
    case InOctal(value, digits) =>
      if digits < 3 && IsOctalDigit(c) then r.(mode := InOctal(value * 8 + DigitValue(c), digits + 1))
      else ReadInside(Flush(r), c)
    case Malformed => r
  }

  function ReadAll(r: Reader, text: string): Reader {
    if text == [] then r else Read(ReadAll(r, text[..|text| - 1]), text[|text| - 1])
  }

  /** The bytes that a sequence of adjacent literals stands for. */
  function Literals(text: string): Option<seq<int>> {
    var r := ReadAll(Begin, text);
    if r.mode.Outside? then Some(r.bytes) else None
  }

  lemma {:induction false} ReadSplit(r: Reader, a: string, b: string)
    ensures ReadAll(r, a + b) == ReadAll(ReadAll(r, a), b)
  {
    if b == [] {
      assert a + b == a;
    } else {
      var n := |b| - 1;
      assert (a + b)[..|a| + n] == a + b[..n];
      ReadSplit(r, a, b[..n]);
    }
  }

  lemma ReadOne(r: Reader, c: char)
    ensures ReadAll(r, [c]) == Read(r, c)
  {
  }

  // ---------------------------------------------------------------- pieces of the text

  /** A byte's octal escape is read as that byte, pending the character that ends it. */
  lemma ReadEscape(r: Reader, n: nat)
    requires n < 256
    requires r.mode.Inside? || (r.mode.InOctal? && r.mode.value < 256)
    ensures ReadAll(r, Escape(n)) == Reader(InOctal(n, |Octal(n)|), Flush(r).bytes)
  {
    var start := Read(r, '\\');
    ReadOne(r, '\\');
    ReadSplit(r, "\\", Octal(n));
    ReadOctal(start, n);
  }

  lemma {:induction false} ReadOctal(r: Reader, n: nat)
    requires n < 256 && r.mode.Backslash?
    ensures 1 <= |Octal(n)| <= 3
    ensures n < 64 ==> |Octal(n)| <= 2
    ensures n < 8 ==> |Octal(n)| == 1
    ensures ReadAll(r, Octal(n)) == Reader(InOctal(n, |Octal(n)|), r.bytes)
  {
    if n < 8 {
      ReadOne(r, Digit(n));
    } else {
      ReadOctal(r, n / 8);
      ReadSplit(r, Octal(n / 8), [Digit(n % 8)]);
      ReadOne(ReadAll(r, Octal(n / 8)), Digit(n % 8));
    }
  }

  lemma ReadOpening(r: Reader)
    requires r.mode.Outside?
    ensures ReadAll(r, "    \"") == r.(mode := Inside)
  {
    assert "    \"" == "    " + "\"" && "    " == "   " + " " && "   " == "  " + " " && "  " == " " + " ";
    ReadSplit(r, "    ", "\"");
    ReadSplit(r, "   ", " ");
    ReadSplit(r, "  ", " ");
    ReadSplit(r, " ", " ");
    ReadOne(r, ' ');
    ReadOne(r, '"');
  }

  lemma ReadClosing(r: Reader)
    requires r.mode.InOctal? && r.mode.value < 256
    ensures ReadAll(r, "\"") == Flush(r).(mode := Outside)
    ensures ReadAll(r, "\"\n") == Flush(r).(mode := Outside)
  {
  }

  // ---------------------------------------------------------------- the round trip

  ghost predicate Bytes(data: seq<nat>) {
    forall i :: 0 <= i < |data| ==> data[i] < 256
  }

  /** The state of the reader after the first bytes of the data have been printed. */
  ghost predicate Printed(r: Reader, data: seq<nat>, lineChars: nat) {
    if lineChars == 0 then r == Reader(Outside, data)
    else
      && data != []
      && r.mode.InOctal? && r.mode.value == data[|data| - 1]
      && r.bytes == data[..|data| - 1]
  }

  // ---------------------------------------------------------------- the lines

  /** One literal: full lines end in a line break. */
  function Line(content: string): string {
    "    \"" + content + if |content| >= LINE_LIMIT then "\"\n" else "\""
  }

  function Join(lines: seq<string>): string {
    if lines == [] then "" else Join(lines[..|lines| - 1]) + Line(lines[|lines| - 1])
  }

  lemma JoinOneMore(lines: seq<string>, content: string)
    ensures Join(lines + [content]) == Join(lines) + Line(content)
  {
  }

  /** A full line has at least 80 characters of escapes, and at most one escape more than 79. */
  predicate Full(content: string) {
    80 <= |content| <= 83
  }

  /** All lines but the last are full, and the last is not empty. */
  ghost predicate Wrapped(lines: seq<string>) {
    forall i :: 0 <= i < |lines| ==> Full(lines[i]) || (i == |lines| - 1 && 1 <= |lines[i]| < 80)
  }

  lemma EscapeLength(n: nat)
    requires n < 256
    ensures 2 <= |Escape(n)| <= 4
  {
    ReadOctal(Reader(Backslash, []), n);
  }

  /** The text so far: full lines, and then the one being printed, if any. */
  ghost predicate Laid(text: string, lines: seq<string>, current: string) {
    && (forall k :: 0 <= k < |lines| ==> Full(lines[k]))
    && text == if current == "" then Join(lines) else Join(lines) + ("    \"" + current)
  }

  lemma LayEscape(text: string, lines: seq<string>, current: string, s: string)
    requires Laid(text, lines, current) && s != ""
    ensures Laid((if current == "" then text + "    \"" else text) + s, lines, current + s)
  {
    assert Join(lines) + ("    \"" + (current + s)) == Join(lines) + ("    \"" + current) + s;
    assert Join(lines) + "    \"" + s == Join(lines) + ("    \"" + ("" + s));
  }

  lemma LayBreak(text: string, lines: seq<string>, current: string)
    requires Laid(text, lines, current) && Full(current)
    ensures Laid(text + "\"\n", lines + [current], "")
  {
    JoinOneMore(lines, current);
    assert Join(lines) + ("    \"" + current + "\"\n") == Join(lines) + ("    \"" + current) + "\"\n";
  }

  lemma LayEnd(text: string, lines: seq<string>, current: string)
    requires Laid(text, lines, current) && 1 <= |current| < LINE_LIMIT
    ensures Wrapped(lines + [current]) && text + "\"" == Join(lines + [current])
  {
    JoinOneMore(lines, current);
    assert Join(lines) + ("    \"" + current + "\"") == Join(lines) + ("    \"" + current) + "\"";
  }

  /** The text printed for the first bytes of the data. */
  ghost predicate Begun(text: string, data: seq<nat>, lines: seq<string>, current: string) {
    Bytes(data) && Printed(ReadAll(Begin, text), data, |current|) && Laid(text, lines, current)
  }

  lemma PrintByte(text: string, data: seq<nat>, lines: seq<string>, current: string, n: nat)
    requires Begun(text, data, lines, current) && n < 256
    ensures 2 <= |Escape(n)| <= 4
    ensures Begun((if current == "" then text + "    \"" else text) + Escape(n), data + [n], lines, current + Escape(n))
  {
    if current == "" {
      ReadSplit(Begin, text, "    \"");
      ReadOpening(ReadAll(Begin, text));
    }
    EscapeLength(n);
    LayEscape(text, lines, current, Escape(n));
    PrintEscape(if current == "" then text + "    \"" else text, data, n);
  }

  lemma BreakLine(text: string, data: seq<nat>, lines: seq<string>, current: string)
    requires Begun(text, data, lines, current) && LINE_LIMIT <= |current| <= 83
    ensures Begun(text + "\"\n", data, lines + [current], "")
  {
    PrintEnd(text, data);
    LayBreak(text, lines, current);
  }

  lemma EndText(text: string, data: seq<nat>, lines: seq<string>, current: string)
    requires Begun(text, data, lines, current) && |current| < LINE_LIMIT
    ensures var all := if current == "" then lines else lines + [current];
      var end := if current == "" then text else text + "\"";
      Literals(end) == Some(data) && Wrapped(all) && end == Join(all)
  {
    if current != "" {
      PrintEnd(text, data);
      LayEnd(text, lines, current);
    }
  }

  /**
   The text printed for any bytes is read back as those bytes: its line breaks
   change nothing.  It is broken into lines of 80 to 83 characters of escapes,
   but for a shorter last one.
   */
  method ToCString(data: seq<nat>) returns (result: string)
    requires Bytes(data)
    ensures Literals(result) == Some(data)
    ensures exists lines :: Wrapped(lines) && result == Join(lines)
  {
    result := "";
    var lineChars := 0;
    ghost var lines: seq<string>, current: string := [], "";
    for i := 0 to |data|
      invariant lineChars == |current| < LINE_LIMIT
      invariant Begun(result, data[..i], lines, current)
    {
      var s := Escape(data[i]);
      ghost var text := result;
      if lineChars == 0 {
        result := result + "    \"";
      }
      result := result + s;
      assert Begun(result, data[..i + 1], lines, current + s) && 2 <= |s| <= 4 by {
        PrintByte(text, data[..i], lines, current, data[i]);
        assert data[..i + 1] == data[..i] + [data[i]];
      }
      lineChars := lineChars + |s|;
      current := current + s;
      if lineChars >= LINE_LIMIT {
        BreakLine(result, data[..i + 1], lines, current);
        result := result + "\"\n";
        lines, current := lines + [current], "";
        lineChars := 0;
      }
    }
    assert data[..|data|] == data;
    EndText(result, data, lines, current);
    if lineChars != 0 {
      result := result + "\"";
    }
  }

  lemma PrintEscape(text: string, data: seq<nat>, n: nat)
    requires n < 256 && Bytes(data)
    requires var r := ReadAll(Begin, text); r == Reader(Inside, data) || Printed(r, data, 1)
    ensures Printed(ReadAll(Begin, text + Escape(n)), data + [n], 1)
  {
    var r := ReadAll(Begin, text);
    ReadSplit(Begin, text, Escape(n));
    ReadEscape(r, n);
    assert Flush(r).bytes == data;
    assert (data + [n])[..|data|] == data;
  }

  lemma PrintEnd(text: string, data: seq<nat>)
    requires Bytes(data) && Printed(ReadAll(Begin, text), data, 1)
    ensures ReadAll(Begin, text + "\"") == Reader(Outside, data)
    ensures ReadAll(Begin, text + "\"\n") == Reader(Outside, data)
  {
    var r := ReadAll(Begin, text);
    ReadSplit(Begin, text, "\"");
    ReadSplit(Begin, text, "\"\n");
    ReadClosing(r);
    assert Flush(r).bytes == data;
  }

  lemma {:induction false} ReadShifted(prefix: seq<int>, r: Reader, text: string)
    ensures var q := ReadAll(r, text);
      ReadAll(r.(bytes := prefix + r.bytes), text) == q.(bytes := prefix + q.bytes)
  {
    if text != [] {
      var n := |text| - 1;
      ReadShifted(prefix, r, text[..n]);
      var q := ReadAll(r, text[..n]);
      if q.mode.InOctal? {
        assert prefix + (q.bytes + [q.mode.value]) == prefix + q.bytes + [q.mode.value];
      }
      var f := Flush(q);
      assert prefix + (f.bytes + [text[n] as int]) == prefix + f.bytes + [text[n] as int];
    }
  }

  /** Adjacent literals are joined, so that data may be printed in as many pieces as one likes. */
  lemma AdjacentLiteralsJoin(a: string, b: string)
    requires Literals(a) != None && Literals(b) != None
    ensures Literals(a + b) == Some(Literals(a).value + Literals(b).value)
  {
    ReadSplit(Begin, a, b);
    ReadShifted(Literals(a).value, Begin, b);
    assert Literals(a).value + [] == Literals(a).value;
  }
}
