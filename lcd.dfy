/**
 * The seven-segment LCD renderer of pg_01/pg_01_04_lcd_display/pg_01_04_lcd_display.c.
 * A number of up to eight decimal digits is drawn at scale s: every digit is a
 * cell s+2 characters wide followed by one space, horizontal segments are s
 * dashes and vertical segments are s rows of bars. The printed output is
 * modelled as the sequence of lines print_lcd writes, without the newlines.
 */
module LcdDisplay {
  import opened Wrappers

  const MaxDigits := 8
  const MaxScale := 10
  const MinScale := 1

  /** The seven segments, in the order of the columns of the table. */
  datatype Segment = Top | TopLeft | TopRight | Middle | BottomLeft | BottomRight | Bottom

  /** segments7: row d says which segments digit d lights. */
  const Segments7: seq<seq<int>> := [
    [1, 1, 1, 0, 1, 1, 1],
    [0, 0, 1, 0, 0, 1, 0],
    [1, 0, 1, 1, 1, 0, 1],
    [1, 0, 1, 1, 0, 1, 1],
    [0, 1, 1, 1, 0, 1, 0],
    [1, 1, 0, 1, 0, 1, 1],
    [1, 1, 0, 1, 1, 1, 1],
    [1, 0, 1, 0, 0, 1, 0],
    [1, 1, 1, 1, 1, 1, 1],
    [1, 1, 1, 1, 0, 1, 1]
  ]

  /** Whether digit d lights the segment, read off the column of the table for that segment. */
  function Lit(d: int, seg: Segment): (lit: bool)
    requires 0 <= d < 10
  {
    match seg
    case Top => d != 1 && d != 4
    case TopLeft => d != 1 && d != 2 && d != 3 && d != 7
    case TopRight => d != 5 && d != 6
    case Middle => d != 0 && d != 1 && d != 7
    case BottomLeft => d == 0 || d == 2 || d == 6 || d == 8
    case BottomRight => d != 2
    case Bottom => d != 1 && d != 4 && d != 7
  }

  /** The table entry of a segment: 1 when lit, 0 otherwise. */
  function Bit(d: int, seg: Segment): int
    requires 0 <= d < 10
  {
    if Lit(d, seg) then 1 else 0
  }

  /** Row d of the table lists, in column order, the bits of the segments digit d lights. */
  lemma TableRow(d: int)
    requires 0 <= d < 10
    ensures Segments7[d] == [Bit(d, Top), Bit(d, TopLeft), Bit(d, TopRight), Bit(d, Middle),
                             Bit(d, BottomLeft), Bit(d, BottomRight), Bit(d, Bottom)]
  {
  }

  /** Digit 8 lights every segment; digit 1 only the two on the right. */
  lemma EightAndOne()
    ensures forall seg :: Lit(8, seg)
    ensures forall seg :: Lit(1, seg) <==> seg == TopRight || seg == BottomRight
  {
    forall seg
      ensures Lit(8, seg)
      ensures Lit(1, seg) <==> seg == TopRight || seg == BottomRight
    {
      match seg
      case Top =>
      case TopLeft =>
      case TopRight =>
      case Middle =>
      case BottomLeft =>
      case BottomRight =>
      case Bottom =>
    }
  }

  /** is_valid_scale. */
  predicate IsValidScale(s: int)
  {
    s >= MinScale && s <= MaxScale
  }

  predicate IsDigit(c: char)
  {
    '0' <= c <= '9'
  }

  predicate AllDigits(num: string)
  {
    forall i :: 0 <= i < |num| ==> IsDigit(num[i])
  }

  /** What is_valid_number accepts: one to eight characters, all decimal digits. */
  predicate ValidNumber(num: string)
  {
    1 <= |num| <= MaxDigits && AllDigits(num)
  }

  /**
   * is_valid_number, on the characters before the string's terminating NUL:
   * the length check first, then a scan that stops at the first non-digit.
   */
  method IsValidNumber(num: string) returns (ok: bool)
    ensures ok <==> ValidNumber(num)
  {
    var len := |num|;
    if len == 0 || len > MaxDigits {
      return false;
    }
    for i := 0 to len
      invariant forall k :: 0 <= k < i ==> IsDigit(num[k])
    {
      if num[i] < '0' || num[i] > '9' {
        return false;
      }
    }
    return true;
  }

  /** How many times the loops of the scale run: none when s is not positive. */
  function Reps(s: int): nat
  {
    if s < 0 then 0 else s
  }

  /** The width of a digit cell together with the space after it. */
  function Width(s: int): nat
  {
    Reps(s) + 3
  }

  /** A loop printing one character n times. */
  function Repeat(c: char, n: int): (r: string)
    ensures |r| == Reps(n)
    decreases Reps(n)
  {
    if n <= 0 then "" else [c] + Repeat(c, n - 1)
  }

  /** Every character Repeat prints is c. */
  lemma {:induction false} RepeatSpec(c: char, n: int)
    ensures forall i :: 0 <= i < Reps(n) ==> Repeat(c, n)[i] == c
    decreases Reps(n)
  {
    if n > 0 {
      RepeatSpec(c, n - 1);
    }
  }

  /** The mark a segment shows: c when it is lit, a space otherwise. */
  function Mark(lit: bool, c: char): char
  {
    if lit then c else ' '
  }

  /** print_horizontal: a space, s dashes or spaces as the segment is lit, a space. */
  function HorizontalCell(d: int, s: int, seg: Segment): (cell: string)
    requires 0 <= d < 10
    ensures |cell| == Reps(s) + 2
  {
    " " + Repeat(Mark(Lit(d, seg), '-'), s) + " "
  }

  /** A horizontal cell is blank at both ends and shows its segment everywhere in between. */
  lemma HorizontalCellShape(d: int, s: int, seg: Segment)
    requires 0 <= d < 10
    ensures var cell := HorizontalCell(d, s, seg);
      && cell[0] == ' ' && cell[|cell| - 1] == ' '
      && forall i :: 0 < i < |cell| - 1 ==> cell[i] == Mark(Lit(d, seg), '-')
  {
    RepeatSpec(Mark(Lit(d, seg), '-'), s);
  }

  /** print_vertical: a bar or a space for the left segment, s spaces, the same for the right one. */
  function VerticalCell(d: int, s: int, left: Segment, right: Segment): (cell: string)
    requires 0 <= d < 10
    ensures |cell| == Reps(s) + 2
  {
    [Mark(Lit(d, left), '|')] + Repeat(' ', s) + [Mark(Lit(d, right), '|')]
  }

  /** A vertical cell shows its left segment first, its right segment last, and spaces in between. */
  lemma VerticalCellShape(d: int, s: int, left: Segment, right: Segment)
    requires 0 <= d < 10
    ensures var cell := VerticalCell(d, s, left, right);
      && cell[0] == (Mark(Lit(d, left), '|'))
      && cell[|cell| - 1] == (Mark(Lit(d, right), '|'))
      && forall i :: 0 < i < |cell| - 1 ==> cell[i] == ' '
  {
    RepeatSpec(' ', s);
  }

  /** The five kinds of line print_lcd writes, from top to bottom. */
  datatype Band = TopLine | UpperLines | MiddleLine | LowerLines | BottomLine

  /** The kind of line i of the display at scale s: one, s, one, s and one line. */
  function BandOf(i: int, s: int): Band
  {
    if i == 0 then TopLine
    else if i <= Reps(s) then UpperLines
    else if i == Reps(s) + 1 then MiddleLine
    else if i <= 2 * Reps(s) + 1 then LowerLines
    else BottomLine
  }

  /**
   * What the cell of digit d shows in a line of the given kind: its first
   * character, the one printed s times, and its last character.
   */
  function Pattern(d: int, band: Band): (char, char, char)
    requires 0 <= d < 10
  {
    match band
    case TopLine => (' ', Mark(Lit(d, Top), '-'), ' ')
    case UpperLines => (Mark(Lit(d, TopLeft), '|'), ' ', Mark(Lit(d, TopRight), '|'))
    case MiddleLine => (' ', Mark(Lit(d, Middle), '-'), ' ')
    case LowerLines => (Mark(Lit(d, BottomLeft), '|'), ' ', Mark(Lit(d, BottomRight), '|'))
    case BottomLine => (' ', Mark(Lit(d, Bottom), '-'), ' ')
  }

  /** The cell a digit shows in a line of the given kind. */
  function Cell(d: int, s: int, band: Band): (cell: string)
    requires 0 <= d < 10
    ensures |cell| == Reps(s) + 2
  {
    var (first, middle, last) := Pattern(d, band);
    [first] + Repeat(middle, s) + [last]
  }

  /**
   * The cell of each kind of line is what print_lcd prints there: the top,
   * middle and bottom lines call print_horizontal, the upper and lower lines
   * print_vertical with the segments of their half.
   */
  lemma CellPrints(d: int, s: int, band: Band)
    requires 0 <= d < 10
    ensures band == TopLine ==> Cell(d, s, band) == HorizontalCell(d, s, Top)
    ensures band == UpperLines ==> Cell(d, s, band) == VerticalCell(d, s, TopLeft, TopRight)
    ensures band == MiddleLine ==> Cell(d, s, band) == HorizontalCell(d, s, Middle)
    ensures band == LowerLines ==> Cell(d, s, band) == VerticalCell(d, s, BottomLeft, BottomRight)
    ensures band == BottomLine ==> Cell(d, s, band) == HorizontalCell(d, s, Bottom)
  {
  }

  /** number[i] - '0'. */
  function DigitValue(c: char): int
  {
    c as int - '0' as int
  }

  /** Where the cell of digit k starts in a line: k cells of Width(s) characters precede it. */
  function Start(k: nat, s: int): nat
  {
    if k == 0 then 0 else Start(k - 1, s) + Width(s)
  }

  /** Cells further right start further right. */
  lemma {:induction false} StartMonotone(a: nat, b: nat, s: int)
    requires a <= b
    ensures Start(a, s) <= Start(b, s)
    decreases b - a
  {
    if a < b {
      StartMonotone(a, b - 1, s);
    }
  }

  /** Start(k, s) is k times the width. */
  lemma {:induction false} StartIsProduct(k: nat, s: int)
    ensures Start(k, s) == k * Width(s)
  {
    if k > 0 {
      StartIsProduct(k - 1, s);
      assert k * Width(s) == (k - 1) * Width(s) + Width(s);
    }
  }

  /** Strings all Width(s) characters long. */
  predicate EvenTiles(tiles: seq<string>, s: int)
  {
    forall k :: 0 <= k < |tiles| ==> |tiles[k]| == Width(s)
  }

  /** What one line of print_lcd prints for each digit of number from digit i on: its cell and a space. */
  function Tiles(number: string, s: int, band: Band, i: nat): (tiles: seq<string>)
    requires AllDigits(number) && i <= |number|
    ensures |tiles| == |number| - i && EvenTiles(tiles, s)
    decreases |number| - i
  {
    if i == |number| then []
    else [Cell(DigitValue(number[i]), s, band) + " "] + Tiles(number, s, band, i + 1)
  }

  /** Tile k of the digits from i on belongs to digit i + k. */
  lemma {:induction false} TileAt(number: string, s: int, band: Band, i: nat, k: nat)
    requires AllDigits(number) && i + k < |number|
    ensures Tiles(number, s, band, i)[k] == Cell(DigitValue(number[i + k]), s, band) + " "
    decreases k
  {
    if k > 0 {
      TileAt(number, s, band, i + 1, k - 1);
    }
  }

  /** The loop over the digits of a line, from digit i on: the tiles one after the other. */
  function JoinFrom(tiles: seq<string>, s: int, i: nat): (line: string)
    requires EvenTiles(tiles, s) && i <= |tiles|
    ensures |line| == Start(|tiles| - i, s)
    decreases |tiles| - i
  {
    if i == |tiles| then "" else tiles[i] + JoinFrom(tiles, s, i + 1)
  }

  /** One line of print_lcd: for every digit its cell and a space. */
  function Line(number: string, s: int, band: Band): (line: string)
    requires AllDigits(number)
    ensures |line| == Start(|number|, s)
  {
    JoinFrom(Tiles(number, s, band, 0), s, 0)
  }

  /** s copies of a line: the vertical part of a half of the display. */
  function Copies(line: string, s: int): (lines: seq<string>)
    ensures |lines| == Reps(s)
    ensures forall i :: 0 <= i < |lines| ==> lines[i] == line
  {
    seq(Reps(s), _ => line)
  }

  /**
   * print_lcd, for a number made of digits (main calls it only after
   * is_valid_number): the top line, s upper lines, the middle line, s lower
   * lines and the bottom line, each the same width.
   */
  function LcdLines(number: string, s: int): (lines: seq<string>)
    requires AllDigits(number)
    ensures |lines| == 2 * Reps(s) + 3
    ensures forall i :: 0 <= i < |lines| ==> lines[i] == Line(number, s, BandOf(i, s))
  {
    var top, middle, bottom := [Line(number, s, TopLine)], [Line(number, s, MiddleLine)], [Line(number, s, BottomLine)];
    var upper, lower := Copies(Line(number, s, UpperLines), s), Copies(Line(number, s, LowerLines), s);
    var lines := top + upper + middle + lower + bottom;
    forall i | 0 <= i < |lines|
      ensures lines[i] == Line(number, s, BandOf(i, s))
    {
      var r := Reps(s);
      if 1 <= i <= r {
        assert lines[i] == upper[i - 1];
      } else if r + 2 <= i <= 2 * r + 1 {
        assert lines[i] == lower[i - r - 2];
      }
    }
    lines
  }

  /**
   * At a non-negative scale s the display has 2s+3 lines, each of them
   * |number|(s+3) characters long.
   */
  lemma LcdShape(number: string, s: int)
    requires AllDigits(number) && s >= 0
    ensures |LcdLines(number, s)| == 2 * s + 3
    ensures forall i :: 0 <= i < 2 * s + 3 ==> |LcdLines(number, s)[i]| == |number| * (s + 3)
  {
    StartIsProduct(|number|, s);
  }

  /** A rendered display of `len` digits at scale s, s at least one. */
  predicate IsDisplay(lines: seq<string>, s: int, len: nat)
  {
    s >= 1 && |lines| == 2 * s + 3 && forall i :: 0 <= i < |lines| ==> |lines[i]| == Start(len, s)
  }

  function Shown(c: char, mark: char): int
  {
    if c == mark then 1 else 0
  }

  /** The segments of digit k as the display shows them, in the order of the table. */
  function SegmentsShown(lines: seq<string>, s: int, len: nat, k: nat): seq<int>
    requires IsDisplay(lines, s, len) && k < len
  {
    var x := Start(k, s);
    assert x + Width(s) <= Start(len, s) by {
      StartMonotone(k + 1, len, s);
    }
    [Shown(lines[0][x + 1], '-'),
     Shown(lines[1][x], '|'), Shown(lines[1][x + s + 1], '|'),
     Shown(lines[s + 1][x + 1], '-'),
     Shown(lines[s + 2][x], '|'), Shown(lines[s + 2][x + s + 1], '|'),
     Shown(lines[2 * s + 2][x + 1], '-')]
  }

  /** The digit whose table row is `bits`, searching from row d on; -1 if none. */
  function FindDigit(bits: seq<int>, d: nat): (r: int)
    requires d <= 10
    ensures r == -1 || (d <= r < 10 && Segments7[r] == bits)
    ensures r == -1 ==> forall e :: d <= e < 10 ==> Segments7[e] != bits
    decreases 10 - d
  {
    if d == 10 then -1 else if Segments7[d] == bits then d else FindDigit(bits, d + 1)
  }

  /** Reading a display back: each digit is the one whose segments are shown, '?' if none. */
  function ReadBack(lines: seq<string>, s: int, len: nat): (number: string)
    requires IsDisplay(lines, s, len)
    ensures |number| == len
  {
    seq(len, k requires 0 <= k < len =>
      var d := FindDigit(SegmentsShown(lines, s, len, k), 0);
      if d < 0 then '?' else ('0' as int + d) as char)
  }

  /** No two digits light the same segments. */
  lemma RowsDistinct(d: int)
    requires 0 <= d < 10
    ensures FindDigit(Segments7[d], 0) == d
  {
  }

  /** From tile i on, tile k occupies the (k - i)-th stretch of Width(s) characters. */
  lemma {:induction false} JoinIndex(tiles: seq<string>, s: int, i: nat, k: nat, j: nat)
    requires EvenTiles(tiles, s) && i <= k < |tiles| && j < Width(s)
    ensures Start(k - i, s) + j < |JoinFrom(tiles, s, i)|
    ensures JoinFrom(tiles, s, i)[Start(k - i, s) + j] == tiles[k][j]
    decreases k - i
  {
    if k > i {
      JoinIndex(tiles, s, i + 1, k, j);
      assert Start(k - i, s) + j == |tiles[i]| + Start(k - (i + 1), s) + j;
    }
  }

  /** In one line of print_lcd, the cell of digit k and its space take the k-th stretch of Width(s) characters. */
  lemma LineChar(number: string, s: int, band: Band, k: nat, j: nat)
    requires AllDigits(number) && k < |number| && j < Width(s)
    ensures Start(k, s) + j < |Line(number, s, band)|
    ensures Line(number, s, band)[Start(k, s) + j] == Tiles(number, s, band, 0)[k][j]
  {
    JoinIndex(Tiles(number, s, band, 0), s, 0, k, j);
  }

  /** Where the tile of digit k shows its segments, at scale 1 or more: its first, second and (s + 2)-th characters. */
  lemma TileMarks(number: string, s: int, band: Band, k: nat)
    requires AllDigits(number) && k < |number| && s >= 1
    ensures var tile, d := Tiles(number, s, band, 0)[k], DigitValue(number[k]);
      tile[0] == Pattern(d, band).0 && tile[1] == Pattern(d, band).1 && tile[s + 1] == Pattern(d, band).2
  {
    TileAt(number, s, band, 0, k);
    CellMarks(DigitValue(number[k]), s, band);
  }

  lemma CellMarks(d: int, s: int, band: Band)
    requires 0 <= d < 10 && s >= 1
    ensures (Cell(d, s, band) + " ")[0] == Pattern(d, band).0
    ensures (Cell(d, s, band) + " ")[1] == Pattern(d, band).1
    ensures (Cell(d, s, band) + " ")[s + 1] == Pattern(d, band).2
  {
    RepeatSpec(Pattern(d, band).1, s);
  }

  /** Line i of a display as print_lcd lays it out. */
  predicate RowIs(lines: seq<string>, number: string, s: int, i: int)
    requires AllDigits(number) && 0 <= i < |lines|
  {
    lines[i] == Line(number, s, BandOf(i, s))
  }

  /** Lines laid out as print_lcd lays them out, whatever function built them. */
  predicate IsRendering(lines: seq<string>, number: string, s: int)
    requires AllDigits(number)
  {
    |lines| == 2 * Reps(s) + 3 && forall i :: 0 <= i < |lines| ==> RowIs(lines, number, s, i)
  }

  /** Line i of a display, when it is a top, middle or bottom line, shows the middle mark of each cell second. */
  lemma HorizontalMark(number: string, s: int, lines: seq<string>, k: nat, i: int)
    requires AllDigits(number) && s >= 1 && k < |number| && IsRendering(lines, number, s)
    requires i == 0 || i == s + 1 || i == 2 * s + 2
    ensures Start(k, s) + 1 < |lines[i]|
    ensures lines[i][Start(k, s) + 1] == Pattern(DigitValue(number[k]), BandOf(i, s)).1
  {
    assert RowIs(lines, number, s, i);
    LineChar(number, s, BandOf(i, s), k, 1);
    TileMarks(number, s, BandOf(i, s), k);
  }

  /** Line i of a display, when it is an upper or lower line, shows the side marks of each cell first and last. */
  lemma VerticalMark(number: string, s: int, lines: seq<string>, k: nat, i: int, j: nat)
    requires AllDigits(number) && s >= 1 && k < |number| && IsRendering(lines, number, s)
    requires (i == 1 || i == s + 2) && (j == 0 || j == s + 1)
    ensures Start(k, s) + j < |lines[i]|
    ensures var p := Pattern(DigitValue(number[k]), BandOf(i, s));
      lines[i][Start(k, s) + j] == if j == 0 then p.0 else p.2
  {
    assert RowIs(lines, number, s, i);
    LineChar(number, s, BandOf(i, s), k, j);
    TileMarks(number, s, BandOf(i, s), k);
  }

  /** At scale 1 or more, the display shows exactly the segments of each digit. */
  lemma SegmentsShownOfDigit(number: string, s: int, lines: seq<string>, k: nat)
    requires AllDigits(number) && s >= 1 && k < |number|
    requires IsRendering(lines, number, s) && IsDisplay(lines, s, |number|)
    ensures SegmentsShown(lines, s, |number|, k) == Segments7[DigitValue(number[k])]
  {
    var d := DigitValue(number[k]);
    var shown := SegmentsShown(lines, s, |number|, k);
    HorizontalMark(number, s, lines, k, 0);
    VerticalMark(number, s, lines, k, 1, 0);
    VerticalMark(number, s, lines, k, 1, s + 1);
    HorizontalMark(number, s, lines, k, s + 1);
    VerticalMark(number, s, lines, k, s + 2, 0);
    VerticalMark(number, s, lines, k, s + 2, s + 1);
    HorizontalMark(number, s, lines, k, 2 * s + 2);
    assert BandOf(0, s) == TopLine && BandOf(1, s) == UpperLines && BandOf(s + 1, s) == MiddleLine;
    assert BandOf(s + 2, s) == LowerLines && BandOf(2 * s + 2, s) == BottomLine;
    TableRow(d);
  }

  /** Each digit of a display laid out as print_lcd lays it out reads back as itself. */
  lemma DigitReadsBack(number: string, s: int, lines: seq<string>, k: nat)
    requires AllDigits(number) && s >= 1 && k < |number|
    requires IsRendering(lines, number, s) && IsDisplay(lines, s, |number|)
    ensures ReadBack(lines, s, |number|)[k] == number[k]
  {
    SegmentsShownOfDigit(number, s, lines, k);
    RowsDistinct(DigitValue(number[k]));
  }

  /** Rendering loses nothing: at scale 1 or more the display reads back as the number. */
  lemma ReadBackRenders(number: string, s: int)
    requires AllDigits(number) && s >= 1
    ensures IsDisplay(LcdLines(number, s), s, |number|)
    ensures ReadBack(LcdLines(number, s), s, |number|) == number
  {
    var lines := LcdLines(number, s);
    assert IsRendering(lines, number, s) by {
      forall i | 0 <= i < |lines| ensures RowIs(lines, number, s, i) { }
    }
    assert IsDisplay(lines, s, |number|);
    var back := ReadBack(lines, s, |number|);
    forall k | 0 <= k < |number|
      ensures back[k] == number[k]
    {
      DigitReadsBack(number, s, lines, k);
    }
  }

  /** Two numbers of the same length draw the same display only if they are equal. */
  lemma RenderingInjective(a: string, b: string, s: int)
    requires AllDigits(a) && AllDigits(b) && |a| == |b| && s >= 1
    requires LcdLines(a, s) == LcdLines(b, s)
    ensures a == b
  {
    ReadBackRenders(a, s);
    ReadBackRenders(b, s);
  }

  /**
   * main: a scale outside 1..10 or a number is_valid_number rejects prints
   * an error and exits with status 1; otherwise the display is printed.
   */
  function Program(s: int, number: string): (r: Option<seq<string>>)
    ensures r.Some? <==> IsValidScale(s) && ValidNumber(number)
    ensures r.Some? ==> IsDisplay(r.value, s, |number|) && ReadBack(r.value, s, |number|) == number
  {
    if !IsValidScale(s) || !ValidNumber(number) then None
    else
      ReadBackRenders(number, s);
      Some(LcdLines(number, s))
  }
}
