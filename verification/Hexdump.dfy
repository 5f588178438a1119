/** The hexdump of the logger: what it prints, how long it is, and how to read the bytes back. */
module Hexdump {
  import opened ByteType

  const BYTES_PER_LINE := 8
  const SPACE_BREAK := 3

  // ---------------------------------------------------------------- the layout

  function HexDigit(d: nat): char
    requires d < 16
  {
    (if d < 10 then '0' as nat + d else 'a' as nat + d - 10) as char
  }

  /** Column i of the line that starts at byte idx: two digits and a space, or three spaces past the end. */
  function Column(data: seq<Byte>, idx: nat, i: nat): (s: string)
    ensures |s| == 3
  {
    if idx + i < |data| then [HexDigit(data[idx + i] / 16), HexDigit(data[idx + i] % 16), ' '] else "   "
  }

  /** Where column i begins, counted from the first column. */
  function Start(i: nat): nat {
    3 * i + (if i > SPACE_BREAK then 2 else 0)
  }

  function Gap(n: nat, gap: string): string {
    if n == SPACE_BREAK then gap else ""
  }

  /** The first n columns, with a gap after the fourth. */
  function HexColumns(data: seq<Byte>, idx: nat, n: nat): (s: string)
    ensures |s| == Start(n)
  {
    if n == 0 then ""
    else HexColumns(data, idx, n - 1) + (Column(data, idx, n - 1) + Gap(n - 1, "  "))
  }

  /** isprint in the C locale. */
  predicate IsPrint(b: Byte) {
    0x20 <= b <= 0x7E
  }

  function Shown(b: Byte): char {
    if IsPrint(b) then b as char else '.'
  }

  /** How many of the first n bytes of the line exist. */
  function Present(data: seq<Byte>, idx: nat, n: nat): (k: nat)
    ensures k <= n
  {
    if idx + n <= |data| then n else if idx < |data| then |data| - idx else 0
  }

  function Character(data: seq<Byte>, at: nat): string {
    if at < |data| then [Shown(data[at])] else ""
  }

  function AsciiColumns(data: seq<Byte>, idx: nat, n: nat): (s: string)
    ensures |s| == Present(data, idx, n) + (if n > SPACE_BREAK then 1 else 0)
  {
    if n == 0 then ""
    else AsciiColumns(data, idx, n - 1) + (Character(data, idx + n - 1) + Gap(n - 1, " "))
  }

  function Spaces(n: nat): string {
    seq(n, _ => ' ')
  }

  /** One line without its line break. */
  function Line(data: seq<Byte>, idx: nat, pad: nat): (s: string)
    ensures |s| == pad + 30 + Present(data, idx, BYTES_PER_LINE)
  {
    Spaces(pad) + HexColumns(data, idx, BYTES_PER_LINE) + "  |" + AsciiColumns(data, idx, BYTES_PER_LINE)
  }

  /** A line and, unless it is the last, its line break. */
  function Piece(data: seq<Byte>, idx: nat, pad: nat): (s: string)
    ensures |s| == pad + 30 + Present(data, idx, BYTES_PER_LINE) + (if idx + BYTES_PER_LINE < |data| then 1 else 0)
  {
    Line(data, idx, pad) + (if idx + BYTES_PER_LINE < |data| then "\n" else "")
  }

  /** The lines from byte idx on; a line break stands between two lines. */
  function Lines(data: seq<Byte>, idx: nat, pad: nat): string
    decreases |data| - idx
  {
    if idx >= |data| then "" else Piece(data, idx, pad) + Lines(data, idx + BYTES_PER_LINE, pad)
  }

  // ---------------------------------------------------------------- the code

  class StringStream {
    var text: string

    constructor ()
      ensures text == ""
    {
      text := "";
    }

    method ApplyPadding(pad: nat)
      modifies this
      ensures text == old(text) + Spaces(pad)
    {
      text := text + Spaces(pad);
    }

    method DumpHex(idx: nat, data: seq<Byte>)
      modifies this
      ensures text == old(text) + HexColumns(data, idx, BYTES_PER_LINE)
    {
      for i := 0 to BYTES_PER_LINE
        invariant text == old(text) + HexColumns(data, idx, i)
      {
        DumpColumn(idx, i, data);
        Regroup(old(text), HexColumns(data, idx, i), Column(data, idx, i) + Gap(i, "  "));
      }
    }

    /** The body of the loop: two digits or blanks, and the gap after the fourth column. */
    method DumpColumn(idx: nat, i: nat, data: seq<Byte>)
      modifies this
      ensures text == old(text) + (Column(data, idx, i) + Gap(i, "  "))
    {
      if i + idx < |data| {
        text := text + [HexDigit(data[i + idx] / 16), HexDigit(data[i + idx] % 16)] + " ";
      } else {
        text := text + "   ";
      }
      assert text == old(text) + Column(data, idx, i);
      Regroup(old(text), Column(data, idx, i), Gap(i, "  "));
      if i == SPACE_BREAK {
        text := text + "  ";
      }
    }

    method DumpAscii(idx: nat, data: seq<Byte>)
      modifies this
      ensures text == old(text) + "  |" + AsciiColumns(data, idx, BYTES_PER_LINE)
                      + (if idx + BYTES_PER_LINE < |data| then "\n" else "")
    {
      text := text + "  |";
      ghost var start := text;
      var i := 0;
      while i < BYTES_PER_LINE
        invariant i <= BYTES_PER_LINE
        invariant text == start + AsciiColumns(data, idx, i)
      {
        DumpCharacter(idx, i, data);
        Regroup(start, AsciiColumns(data, idx, i), Character(data, idx + i) + Gap(i, " "));
        i := i + 1;
      }
      if i + idx < |data| {
        text := text + "\n";
      } else {
        assert text == text + "";
      }
    }

    /** The body of the loop: the character, if there is one, and the gap after the fourth. */
    method DumpCharacter(idx: nat, i: nat, data: seq<Byte>)
      modifies this
      ensures text == old(text) + (Character(data, idx + i) + Gap(i, " "))
    {
      if i + idx < |data| {
        text := text + [Shown(data[i + idx])];
      }
      assert text == old(text) + Character(data, idx + i);
      Regroup(old(text), Character(data, idx + i), Gap(i, " "));
      if i == SPACE_BREAK {
        text := text + " ";
      }
    }

    method DumpLine(idx: nat, data: seq<Byte>, pad: nat)
      modifies this
      ensures text == old(text) + Piece(data, idx, pad)
    {
      ghost var before := text;
      ApplyPadding(pad);
      DumpHex(idx, data);
      DumpAscii(idx, data);
      RegroupFive(before, Spaces(pad), HexColumns(data, idx, BYTES_PER_LINE), "  |",
                  AsciiColumns(data, idx, BYTES_PER_LINE), if idx + BYTES_PER_LINE < |data| then "\n" else "");
    }

    method ConstructHexdump(data: seq<Byte>, pad: nat)
      modifies this
      ensures text == old(text) + Lines(data, 0, pad)
    {
      var i := 0;
      while i < |data|
        invariant text + Lines(data, i, pad) == old(text) + Lines(data, 0, pad)
        decreases |data| - i
      {
        ghost var before := text;
        DumpLine(i, data, pad);
        Regroup(before, Piece(data, i, pad), Lines(data, i + BYTES_PER_LINE, pad));
        i := i + BYTES_PER_LINE;
      }
    }
  }

  lemma Regroup(a: string, b: string, c: string)
    ensures (a + b) + c == a + (b + c)
  {
  }

  lemma RegroupFive(t: string, a: string, b: string, c: string, d: string, e: string)
    ensures t + a + b + c + d + e == t + (a + b + c + d + e)
  {
  }

  // ---------------------------------------------------------------- the length

  /** n bytes take ceil(n / 8) lines. */
  function LineCount(n: nat): nat {
    (n + 7) / 8
  }

  lemma NextLine(n: nat)
    requires n > BYTES_PER_LINE
    ensures LineCount(n) == LineCount(n - BYTES_PER_LINE) + 1
  {
  }

  lemma OneMore(l: nat, k: nat)
    ensures (l + 1) * k == l * k + k
  {
  }

  lemma {:induction false} LinesLength(data: seq<Byte>, idx: nat, pad: nat)
    requires idx < |data|
    ensures var n := |data| - idx; var l := LineCount(n);
            |Lines(data, idx, pad)| == l * (pad + 30) + n + (l - 1)
    decreases |data| - idx
  {
    var n := |data| - idx;
    var next := idx + BYTES_PER_LINE;
    assert |Lines(data, idx, pad)| == |Piece(data, idx, pad)| + |Lines(data, next, pad)|;
    if n > BYTES_PER_LINE {
      LinesLength(data, next, pad);
      NextLine(n);
      OneMore(LineCount(n - BYTES_PER_LINE), pad + 30);
    } else {
      assert LineCount(n) == 1;
    }
  }

  /** The whole dump of n > 0 bytes in l lines has l * (pad + 30) + n + (l - 1) characters. */
  lemma DumpLength(data: seq<Byte>, pad: nat)
    requires data != []
    ensures |Lines(data, 0, pad)| == LineCount(|data|) * (pad + 30) + |data| + (LineCount(|data|) - 1)
  {
    LinesLength(data, 0, pad);
  }

  function LineBreaks(s: string): nat {
    if s == "" then 0 else (if s[0] == '\n' then 1 else 0) + LineBreaks(s[1..])
  }

  lemma BreaksConcat(a: string, b: string)
    ensures LineBreaks(a + b) == LineBreaks(a) + LineBreaks(b)
  {
    if a == "" {
      assert a + b == b;
    } else {
      assert (a + b)[1..] == a[1..] + b;
      BreaksConcat(a[1..], b);
    }
  }

  lemma NoBreaks(s: string)
    requires forall i :: 0 <= i < |s| ==> s[i] != '\n'
    ensures LineBreaks(s) == 0
  {
  }

  lemma HexHasNoBreaks(data: seq<Byte>, idx: nat, n: nat)
    ensures forall i :: 0 <= i < |HexColumns(data, idx, n)| ==> HexColumns(data, idx, n)[i] != '\n'
  {
  }

  lemma AsciiHasNoBreaks(data: seq<Byte>, idx: nat, n: nat)
    ensures forall i :: 0 <= i < |AsciiColumns(data, idx, n)| ==> AsciiColumns(data, idx, n)[i] != '\n'
  {
  }

  lemma LineHasNoBreaks(data: seq<Byte>, idx: nat, pad: nat)
    ensures forall i :: 0 <= i < |Line(data, idx, pad)| ==> Line(data, idx, pad)[i] != '\n'
  {
    HexHasNoBreaks(data, idx, BYTES_PER_LINE);
    AsciiHasNoBreaks(data, idx, BYTES_PER_LINE);
  }

  lemma PieceBreaks(data: seq<Byte>, idx: nat, pad: nat)
    ensures LineBreaks(Piece(data, idx, pad)) == if idx + BYTES_PER_LINE < |data| then 1 else 0
    ensures idx + BYTES_PER_LINE >= |data| ==> var s := Piece(data, idx, pad); s[|s| - 1] != '\n'
  {
    var line := Line(data, idx, pad);
    LineHasNoBreaks(data, idx, pad);
    NoBreaks(line);
    if idx + BYTES_PER_LINE < |data| {
      BreaksConcat(line, "\n");
      assert LineBreaks("\n") == 1;
    } else {
      assert Piece(data, idx, pad) == line;
    }
  }

  /** Line breaks separate the lines: there is one fewer, and none at the end. */
  lemma {:induction false} BreaksBetweenLines(data: seq<Byte>, idx: nat, pad: nat)
    requires idx < |data|
    ensures LineBreaks(Lines(data, idx, pad)) == LineCount(|data| - idx) - 1
    ensures var s := Lines(data, idx, pad); s != "" && s[|s| - 1] != '\n'
    decreases |data| - idx
  {
    var next := idx + BYTES_PER_LINE;
    var piece, rest := Piece(data, idx, pad), Lines(data, next, pad);
    PieceBreaks(data, idx, pad);
    BreaksConcat(piece, rest);
    LastOf(piece, rest);
    if next < |data| {
      BreaksBetweenLines(data, next, pad);
      NextLine(|data| - idx);
    } else {
      assert rest == "" && LineCount(|data| - idx) == 1;
    }
  }

  lemma LastOf(a: string, b: string)
    ensures b != "" ==> (a + b)[|a + b| - 1] == b[|b| - 1]
    ensures b == "" && a != "" ==> (a + b)[|a + b| - 1] == a[|a| - 1]
  {
  }

  // ---------------------------------------------------------------- where each character stands

  /** c is the lower-case hexadecimal digit d. */
  predicate IsDigit(c: char, d: nat) {
    c as nat == if d < 10 then 48 + d else 87 + d
  }

  /** c shows byte b: itself between the blank and the tilde, else a dot. */
  predicate Shows(c: char, b: Byte) {
    c as nat == if 32 <= b <= 126 then b as nat else 46
  }

  /** The eight columns begin at 0, 3, 6, 9 and, behind two blanks, at 14, 17, 20 and 23. */
  ghost predicate HexLaidOut(hex: string, data: seq<Byte>, idx: nat) {
    && |hex| == 26 && hex[12] == ' ' && hex[13] == ' '
    && forall i :: 0 <= i < 8 ==> ColumnLaidOut(hex, data, idx, i)
  }

  predicate ColumnLaidOut(hex: string, data: seq<Byte>, idx: nat, i: nat)
    requires i < 8 && |hex| == 26
  {
    var at := 3 * i + (if i >= 4 then 2 else 0);
    && hex[at + 2] == ' '
    && if idx + i < |data| then IsDigit(hex[at], data[idx + i] / 16) && IsDigit(hex[at + 1], data[idx + i] % 16)
       else hex[at] == ' ' && hex[at + 1] == ' '
  }

  /** The characters of the bytes that there are, and a blank behind the fourth, or behind the last of fewer. */
  ghost predicate CharactersLaidOut(text: string, data: seq<Byte>, idx: nat)
    requires idx < |data|
  {
    var n := if idx + 8 <= |data| then 8 else |data| - idx;
    && |text| == n + 1 && text[if n < 4 then n else 4] == ' '
    && forall i :: 0 <= i < n ==> CharacterLaidOut(text, data, idx, i)
  }

  predicate CharacterLaidOut(text: string, data: seq<Byte>, idx: nat, i: nat)
    requires idx + i < |data|
  {
    var at := i + (if i >= 4 then 1 else 0);
    at < |text| && Shows(text[at], data[idx + i])
  }

  /** A line that starts at byte idx: blanks, the columns from pad on, "  |" at pad + 26, the characters behind. */
  ghost predicate LaidOut(line: string, data: seq<Byte>, idx: nat, pad: nat)
    requires idx < |data|
  {
    && |line| > pad + 29
    && (forall k :: 0 <= k < pad ==> line[k] == ' ')
    && HexLaidOut(line[pad..pad + 26], data, idx)
    && line[pad + 26] == ' ' && line[pad + 27] == ' ' && line[pad + 28] == '|'
    && CharactersLaidOut(line[pad + 29..], data, idx)
  }

  lemma DigitIs(d: nat)
    requires d < 16
    ensures IsDigit(HexDigit(d), d)
  {
  }

  lemma {:induction false} GapStandsAt(data: seq<Byte>, idx: nat, n: nat)
    requires n >= 4
    ensures |HexColumns(data, idx, n)| >= 14
    ensures HexColumns(data, idx, n)[12] == ' ' && HexColumns(data, idx, n)[13] == ' '
  {
    if n > 4 {
      GapStandsAt(data, idx, n - 1);
    }
  }

  lemma HexColumnLayout(data: seq<Byte>, idx: nat, i: nat)
    requires i < 8
    ensures ColumnLaidOut(HexColumns(data, idx, 8), data, idx, i)
  {
    var hex, at := HexColumns(data, idx, 8), Start(i);
    ColumnStandsAt(data, idx, 8, i);
    var c := Column(data, idx, i);
    assert c[0] == hex[at] && c[1] == hex[at + 1] && c[2] == hex[at + 2];
    if idx + i < |data| {
      DigitIs(data[idx + i] / 16);
      DigitIs(data[idx + i] % 16);
    }
  }

  lemma HexLayout(data: seq<Byte>, idx: nat)
    ensures HexLaidOut(HexColumns(data, idx, 8), data, idx)
  {
    GapStandsAt(data, idx, 8);
    forall i | 0 <= i < 8
      ensures ColumnLaidOut(HexColumns(data, idx, 8), data, idx, i)
    {
      HexColumnLayout(data, idx, i);
    }
  }

  /** In the character column, past the gap, every printable byte of the line shows as itself and any other as a dot. */
  lemma {:induction false} CharacterStandsAt(data: seq<Byte>, idx: nat, n: nat, i: nat)
    requires i < n && idx + i < |data|
    ensures CharacterLaidOut(AsciiColumns(data, idx, n), data, idx, i)
  {
    var before, column := AsciiColumns(data, idx, n - 1), Character(data, idx + n - 1) + Gap(n - 1, " ");
    assert AsciiColumns(data, idx, n) == before + column;
    if i < n - 1 {
      CharacterStandsAt(data, idx, n - 1, i);
    } else {
      assert (before + column)[|before|] == column[0] == Shown(data[idx + i]);
    }
  }

  lemma {:induction false} BlankStandsAt(data: seq<Byte>, idx: nat, n: nat)
    requires n >= 4
    ensures |AsciiColumns(data, idx, n)| > Present(data, idx, 4)
    ensures AsciiColumns(data, idx, n)[Present(data, idx, 4)] == ' '
  {
    if n > 4 {
      BlankStandsAt(data, idx, n - 1);
    }
  }

  lemma CharacterLayout(data: seq<Byte>, idx: nat)
    requires idx < |data|
    ensures CharactersLaidOut(AsciiColumns(data, idx, 8), data, idx)
  {
    BlankStandsAt(data, idx, 8);
    forall i | 0 <= i < Present(data, idx, 8)
      ensures CharacterLaidOut(AsciiColumns(data, idx, 8), data, idx, i)
    {
      CharacterStandsAt(data, idx, 8, i);
    }
  }

  lemma LineLayout(data: seq<Byte>, idx: nat, pad: nat)
    requires idx < |data|
    ensures LaidOut(Line(data, idx, pad), data, idx, pad)
  {
    var line, hex, text := Line(data, idx, pad), HexColumns(data, idx, 8), AsciiColumns(data, idx, 8);
    assert line == Spaces(pad) + hex + "  |" + text;
    HexLayout(data, idx);
    CharacterLayout(data, idx);
    assert line[pad..pad + 26] == hex && line[pad + 29..] == text;
  }

  /** Line l of the dump s stands at position `at`, followed by a line break, or by nothing when it is the last. */
  ghost predicate LineAt(s: string, at: nat, data: seq<Byte>, l: nat, pad: nat)
    requires 8 * l < |data|
  {
    var n := if 8 * l + 8 <= |data| then 8 else |data| - 8 * l;
    var end := at + pad + 30 + n;
    && end <= |s| && LaidOut(s[at..end], data, 8 * l, pad)
    && if 8 * l + 8 < |data| then end < |s| && s[end] == '\n' else |s| == end
  }

  /** Where the line after l full ones begins. */
  function LineStart(l: nat, pad: nat): nat {
    if l == 0 then 0 else pad + 39 + LineStart(l - 1, pad)
  }

  lemma {:induction false} LineStartIs(l: nat, pad: nat)
    ensures LineStart(l, pad) == l * (pad + 39)
  {
    if l > 0 {
      LineStartIs(l - 1, pad);
      OneMore(l - 1, pad + 39);
    }
  }

  predicate StandsAt(s: string, at: nat, line: string, last: bool) {
    var end := at + |line|;
    end <= |s| && s[at..end] == line && if last then |s| == end else end < |s| && s[end] == '\n'
  }

  lemma StandsBehind(piece: string, s: string, at: nat, line: string, last: bool)
    requires StandsAt(s, at, line, last)
    ensures StandsAt(piece + s, |piece| + at, line, last)
  {
    var end := at + |line|;
    assert (piece + s)[|piece| + at..|piece| + end] == s[at..end];
  }

  lemma FirstLineStands(data: seq<Byte>, idx: nat, pad: nat)
    requires idx < |data|
    ensures StandsAt(Lines(data, idx, pad), 0, Line(data, idx, pad), idx + 8 >= |data|)
  {
    var line, end, rest := Line(data, idx, pad), if idx + 8 < |data| then "\n" else "", Lines(data, idx + 8, pad);
    Regroup(line, end, rest);
    assert (line + (end + rest))[0..|line|] == line;
  }

  lemma FullPiece(data: seq<Byte>, idx: nat, pad: nat)
    requires idx + 8 < |data|
    ensures |Piece(data, idx, pad)| == pad + 39
    ensures Lines(data, idx, pad) == Piece(data, idx, pad) + Lines(data, idx + 8, pad)
  {
  }

  /** What stands first in the lines from byte k on stands behind the l full lines before it. */
  lemma {:induction false} LineStandsAt(data: seq<Byte>, idx: nat, l: nat, k: nat, pad: nat, line: string, last: bool)
    requires k == idx + 8 * l < |data| && StandsAt(Lines(data, k, pad), 0, line, last)
    ensures StandsAt(Lines(data, idx, pad), LineStart(l, pad), line, last)
    decreases l
  {
    if l > 0 {
      LineStandsAt(data, idx + 8, l - 1, k, pad, line, last);
      FullPiece(data, idx, pad);
      StandsBehind(Piece(data, idx, pad), Lines(data, idx + 8, pad), LineStart(l - 1, pad), line, last);
    }
  }

  lemma StandingLine(s: string, at: nat, line: string, data: seq<Byte>, l: nat, pad: nat)
    requires 8 * l < |data| && StandsAt(s, at, line, 8 * l + 8 >= |data|) && LaidOut(line, data, 8 * l, pad)
    requires |line| == pad + 30 + if 8 * l + 8 <= |data| then 8 else |data| - 8 * l
    ensures LineAt(s, at, data, l, pad)
  {
  }

  /** The whole dump, character by character: line l holds the bytes from 8 * l on and begins at l * (pad + 39). */
  lemma DumpLayout(data: seq<Byte>, l: nat, pad: nat)
    requires 8 * l < |data|
    ensures LineAt(Lines(data, 0, pad), l * (pad + 39), data, l, pad)
  {
    FirstLineStands(data, 8 * l, pad);
    LineStandsAt(data, 0, l, 8 * l, pad, Line(data, 8 * l, pad), 8 * l + 8 >= |data|);
    LineLayout(data, 8 * l, pad);
    StandingLine(Lines(data, 0, pad), LineStart(l, pad), Line(data, 8 * l, pad), data, l, pad);
    LineStartIs(l, pad);
  }

  // ---------------------------------------------------------------- reading it back

  function Digit(c: char): nat {
    if '0' <= c <= '9' then c as nat - '0' as nat
    else if 'a' <= c <= 'f' then c as nat - 'a' as nat + 10
    else 0
  }

  lemma DigitOfHex(d: nat)
    requires d < 16
    ensures Digit(HexDigit(d)) == d && HexDigit(d) != ' '
  {
  }

  /** The byte whose two digits stand at position `at`; a blank column holds none. */
  function ReadColumn(hex: string, at: nat): seq<nat>
    requires at + 1 < |hex|
  {
    if hex[at] == ' ' then [] else [16 * Digit(hex[at]) + Digit(hex[at + 1])]
  }

  /** The bytes in the first n columns of a line. */
  function ReadColumns(hex: string, n: nat): seq<nat>
    requires n <= BYTES_PER_LINE && |hex| == 26
  {
    if n == 0 then [] else ReadColumns(hex, n - 1) + ReadColumn(hex, Start(n - 1))
  }

  function Rest(s: string, k: nat): (r: string)
    ensures k > 0 && s != "" ==> |r| < |s|
  {
    if k <= |s| then s[k..] else ""
  }

  /** The bytes in the hex columns of all lines: a full line has 39 characters behind its padding. */
  function Undump(s: string, pad: nat): seq<nat>
    decreases |s|
  {
    if |s| < pad + 26 then []
    else ReadColumns(s[pad..pad + 26], BYTES_PER_LINE) + Undump(Rest(s, pad + 39), pad)
  }

  lemma InPrefix(a: string, b: string, k: nat)
    requires k + 3 <= |a|
    ensures (a + b)[k..k + 3] == a[k..k + 3]
  {
  }

  lemma InSuffix(a: string, b: string, c: string, k: nat)
    requires |a| == k && |b| == 3
    ensures (a + (b + c))[k..k + 3] == b
  {
  }

  lemma LastColumnStands(data: seq<Byte>, idx: nat, i: nat)
    ensures Start(i) + 3 <= Start(i + 1)
    ensures HexColumns(data, idx, i + 1)[Start(i)..Start(i) + 3] == Column(data, idx, i)
  {
    InSuffix(HexColumns(data, idx, i), Column(data, idx, i), Gap(i, "  "), Start(i));
  }

  lemma {:induction false} ColumnStandsAt(data: seq<Byte>, idx: nat, n: nat, i: nat)
    requires i < n
    ensures Start(i) + 3 <= Start(n)
    ensures HexColumns(data, idx, n)[Start(i)..Start(i) + 3] == Column(data, idx, i)
  {
    if i == n - 1 {
      LastColumnStands(data, idx, i);
    } else {
      ColumnStandsAt(data, idx, n - 1, i);
      var a, b := HexColumns(data, idx, n - 1), Column(data, idx, n - 1) + Gap(n - 1, "  ");
      assert HexColumns(data, idx, n) == a + b;
      InPrefix(a, b, Start(i));
    }
  }

  /** The byte of the column for position k. */
  function ByteAt(data: seq<Byte>, k: nat): seq<Byte> {
    if k < |data| then [data[k]] else []
  }

  lemma ColumnHoldsByte(data: seq<Byte>, idx: nat, hex: string, at: nat, i: nat)
    requires at + 3 <= |hex| && hex[at..at + 3] == Column(data, idx, i)
    ensures ReadColumn(hex, at) == ByteAt(data, idx + i)
  {
    var c := Column(data, idx, i);
    assert c[0] == hex[at] && c[1] == hex[at + 1];
    if idx + i < |data| {
      DigitOfHex(data[idx + i] / 16);
      DigitOfHex(data[idx + i] % 16);
    }
  }

  /** The bytes of the first n columns of the line that starts at byte idx. */
  function Bytes(data: seq<Byte>, idx: nat, n: nat): seq<Byte>
    requires idx <= |data|
  {
    data[idx..idx + Present(data, idx, n)]
  }

  lemma BytesGrow(data: seq<Byte>, idx: nat, n: nat)
    requires idx <= |data|
    ensures Bytes(data, idx, n + 1) == Bytes(data, idx, n) + ByteAt(data, idx + n)
  {
  }

  predicate ColumnReads(hex: string, data: seq<Byte>, idx: nat, i: nat)
    requires i < BYTES_PER_LINE && |hex| == 26
  {
    ReadColumn(hex, Start(i)) == ByteAt(data, idx + i)
  }

  lemma {:induction false} ReadFirst(data: seq<Byte>, idx: nat, hex: string, n: nat)
    requires n <= BYTES_PER_LINE && idx <= |data| && |hex| == 26
    requires forall i :: 0 <= i < n ==> ColumnReads(hex, data, idx, i)
    ensures ReadColumns(hex, n) == Bytes(data, idx, n)
  {
    if n > 0 {
      ReadFirst(data, idx, hex, n - 1);
      assert ColumnReads(hex, data, idx, n - 1);
      BytesGrow(data, idx, n - 1);
    }
  }

  lemma ReadLine(data: seq<Byte>, idx: nat, hex: string)
    requires idx <= |data| && hex == HexColumns(data, idx, BYTES_PER_LINE)
    ensures ReadColumns(hex, BYTES_PER_LINE) == Bytes(data, idx, BYTES_PER_LINE)
  {
    forall i | 0 <= i < BYTES_PER_LINE
      ensures ColumnReads(hex, data, idx, i)
    {
      ColumnStandsAt(data, idx, BYTES_PER_LINE, i);
      ColumnHoldsByte(data, idx, hex, Start(i), i);
    }
    ReadFirst(data, idx, hex, BYTES_PER_LINE);
  }

  /** The hex columns of a line stand behind its padding. */
  lemma HexInPiece(data: seq<Byte>, idx: nat, pad: nat)
    ensures Piece(data, idx, pad)[pad..pad + 26] == HexColumns(data, idx, BYTES_PER_LINE)
  {
    var tail := "  |" + AsciiColumns(data, idx, BYTES_PER_LINE)
                + (if idx + BYTES_PER_LINE < |data| then "\n" else "");
    var h := HexColumns(data, idx, BYTES_PER_LINE);
    assert Piece(data, idx, pad) == Spaces(pad) + h + tail;
  }

  lemma UndumpStep(piece: string, rest: string, pad: nat)
    requires pad + 26 <= |piece| && (if rest == "" then |piece| <= pad + 39 else |piece| == pad + 39)
    ensures Undump(piece + rest, pad) == ReadColumns(piece[pad..pad + 26], BYTES_PER_LINE) + Undump(rest, pad)
  {
    var s := piece + rest;
    assert s[pad..pad + 26] == piece[pad..pad + 26];
    assert Rest(s, pad + 39) == rest;
  }

  lemma Joined(data: seq<Byte>, i: nat, j: nat)
    requires i <= j <= |data|
    ensures data[i..j] + data[j..] == data[i..]
  {
  }

  lemma {:induction false} UndumpLines(data: seq<Byte>, idx: nat, pad: nat)
    requires idx < |data|
    ensures Undump(Lines(data, idx, pad), pad) == data[idx..]
    decreases |data| - idx
  {
    var next := idx + BYTES_PER_LINE;
    UndumpStep(Piece(data, idx, pad), Lines(data, next, pad), pad);
    HexInPiece(data, idx, pad);
    ReadLine(data, idx, HexColumns(data, idx, BYTES_PER_LINE));
    if next < |data| {
      UndumpLines(data, next, pad);
      Joined(data, idx, next);
    } else {
      assert Undump("", pad) == [];
    }
  }

  /** The hex columns hold exactly the bytes. */
  lemma UndumpOfDump(data: seq<Byte>, pad: nat)
    ensures Undump(Lines(data, 0, pad), pad) == data
  {
    if data != [] {
      UndumpLines(data, 0, pad);
    }
  }

  /** So equal dumps mean equal data. */
  lemma DumpDecides(a: seq<Byte>, b: seq<Byte>, pad: nat)
    requires Lines(a, 0, pad) == Lines(b, 0, pad)
    ensures a == b
  {
    UndumpOfDump(a, pad);
    UndumpOfDump(b, pad);
  }
}
