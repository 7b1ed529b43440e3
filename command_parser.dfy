/**
 * The CommandParser of pg_01_/pg_01_05_graphical_editor/Main.java: one text
 * line at a time, it picks a command by the first character of the first
 * token and applies it to the current Image, ignoring every line it cannot
 * use. The line arrives here already trimmed and split on white space, each
 * token with its first character and the value Integer.parseInt gives it.
 */
module CommandParsing {
  import opened Wrappers
  import opened GraphicalEditor

  /** A token: its first character and, when Integer.parseInt accepts it, its value. */
  datatype Word = Word(first: char, number: Option<int>)

  /** What processCommand can be given. */
  datatype Line =
    | Null                      // line == null
    | Empty                     // line.isEmpty()
    | Blank                     // nothing left after trim: split gives one empty token
    | Words(words: seq<Word>)   // the tokens of a line with something left after trim

  /** What a line asks for, once every check that makes the parser ignore it is passed. */
  datatype Action =
    | Ignore
    | Crash                     // charAt(0) of the empty token throws outside the try block
    | Exit                      // System.exit(0)
    | NewImage(width: int, height: int)
    | ClearImage
    | Paint(shape: Shape, color: char)
    | Fill(x: int, y: int, color: char)
    | Save                      // prints the image; changes nothing

  datatype Status = Continuing | Exited | Crashed

  /** The number of tokens each command needs, the command letter included. */
  function Arity(command: char): nat
  {
    match command
    case 'I' => 3
    case 'L' => 4
    case 'F' => 4
    case 'V' => 5
    case 'H' => 5
    case 'K' => 6
    case _ => 1
  }

  /** The parsed values of tokens 1..n-1, if all of them parse. */
  predicate Numbers(words: seq<Word>, n: nat)
  {
    n <= |words| && forall k :: 1 <= k < n ==> words[k].number.Some?
  }

  /**
   * processCommand and its per-command helpers, as a choice of action: an
   * unknown letter, too few tokens, a token Integer.parseInt rejects
   * (NumberFormatException, swallowed by the catch), a negative size
   * (NegativeArraySizeException, swallowed too) or a missing image all mean
   * the line is ignored.
   */
  function Interpret(line: Line, hasImage: bool): (a: Action)
    ensures (a.ClearImage? || a.Paint? || a.Fill? || a.Save?) ==> hasImage
    ensures a.NewImage? ==> 0 <= a.width && 0 <= a.height
  {
    match line
    case Null => Ignore
    case Empty => Ignore
    case Blank => Crash
    case Words(words) =>
      if |words| == 0 then Ignore
      else
        var command := words[0].first;
        if command == 'X' then Exit
        else if command == 'I' then
          if !Numbers(words, 3) then Ignore
          else
            var m, n := words[1].number.value, words[2].number.value;
            if m < 0 || n < 0 then Ignore else NewImage(m, n)
        else if !hasImage then Ignore
        else if command == 'C' then ClearImage
        else if command == 'S' then Save
        else if command !in "LVHKF" || |words| < Arity(command) || !Numbers(words, Arity(command) - 1) then Ignore
        else
          var color := words[Arity(command) - 1].first;
          var v1, v2 := words[1].number.value, words[2].number.value;
          match command
          case 'L' => Paint(Pixel(v1, v2), color)
          case 'F' => Fill(v1, v2, color)
          case 'V' => Paint(Vertical(v1, v2, words[3].number.value), color)
          case 'H' => Paint(Horizontal(v1, v2, words[3].number.value), color)
          case 'K' => Paint(Rectangle(v1, v2, words[3].number.value, words[4].number.value), color)
  }

  /** null, the empty line, and a line whose letter is not a command are ignored. */
  lemma IgnoredLines(line: Line, hasImage: bool)
    requires line.Null? || line.Empty? || (line.Words? && |line.words| > 0 && line.words[0].first !in "ICLVHKFSX")
    ensures Interpret(line, hasImage) == Ignore
  {
  }

  /** A command with fewer tokens than it needs is ignored. */
  lemma TooFewTokensIgnored(words: seq<Word>, hasImage: bool)
    requires 0 < |words| < Arity(words[0].first)
    ensures Interpret(Words(words), hasImage) == Ignore
  {
  }

  /** While there is no image, a line can only create one, exit, crash, or be ignored. */
  lemma NoImageOnlyInit(line: Line)
    ensures Interpret(line, false) in {Ignore, Crash, Exit} || Interpret(line, false).NewImage?
    ensures Interpret(line, false).NewImage? ==> line.Words? && line.words[0].first == 'I'
  {
  }

  /** `I m n` with two non-negative numbers asks for an m-wide, n-high image, whatever the current one. */
  lemma InitReplaces(words: seq<Word>, hasImage: bool)
    requires |words| >= 3 && words[0].first == 'I' && words[1].number.Some? && words[2].number.Some?
    requires words[1].number.value >= 0 && words[2].number.value >= 0
    ensures Interpret(Words(words), hasImage) == NewImage(words[1].number.value, words[2].number.value)
  {
  }

  class CommandParser {
    var image: Image?

    constructor ()
      ensures image == null
    {
      image := null;
    }

    /** The arrays processCommand may change: the current image's pixels. */
    function Canvas(): set<object>
      reads this
    {
      if image == null then {} else {image.pixels}
    }

    /**
     * processCommand: carry out what Interpret picks. The drawing methods'
     * exceptions are swallowed, so only their effect on the pixels counts.
     */
    method ProcessCommand(line: Line) returns (status: Status)
      modifies this, Canvas()
      ensures var a := Interpret(line, old(image) != null);
        && status == (if a.Crash? then Crashed else if a.Exit? then Exited else Continuing)
        && (a.NewImage? ==>
              image != null && fresh(image) && fresh(image.pixels)
              && image.Width() == a.width && image.Height() == a.height && image.IsBlank())
        && (!a.NewImage? ==> image == old(image))
        && (a.ClearImage? ==> image.IsBlank())
        && (a.Paint? ==> image.Repainted(Bounds(a.shape), a.color))
        && (a.Fill? && 1 <= a.x <= image.Width() && 1 <= a.y <= image.Height() ==>
              image.Grid() == FloodFilled(old(image.Grid()), Cell(a.y - 1, a.x - 1), a.color))
        && ((a.Fill? && !(1 <= a.x <= image.Width() && 1 <= a.y <= image.Height())) || a.Save? ==>
              image.Grid() == old(image.Grid()))
        && (old(image) != null && (a.Ignore? || a.Crash? || a.Exit?) ==> unchanged(old(image).pixels))
    {
      var a := Interpret(line, image != null);
      match a {
        case Ignore => status := Continuing;
        case Crash => status := Crashed;
        case Exit => status := Exited;
        case Save => status := Continuing;
        case NewImage(m, n) =>
          image := new Image(m, n);
          status := Continuing;
        case ClearImage =>
          image.Clear();
          status := Continuing;
        case Paint(shape, color) =>
          var _ := Draw(image, shape, color);
          status := Continuing;
        case Fill(x, y, color) =>
          ghost var before := image.Grid();
          var filled := image.FloodFill(x, y, color);
          assert before == old(image.Grid());
          assert filled ==> image.Grid() == FloodFilled(old(image.Grid()), Cell(y - 1, x - 1), color);
          status := Continuing;
      }
    }

    /** colorPixel, verticalLine, horizontalLine or fillRectangle, as the shape says. */
    static method Draw(img: Image, shape: Shape, color: char) returns (ok: bool)
      modifies img.pixels
      ensures ok <==> Fits(Bounds(shape), img.Height(), img.Width())
      ensures img.Repainted(Bounds(shape), color)
    {
      match shape {
        case Pixel(x, y) => ok := img.ColorPixel(x, y, color);
        case Vertical(x, y1, y2) => ok := img.VerticalLine(x, y1, y2, color);
        case Horizontal(x1, x2, y) => ok := img.HorizontalLine(x1, x2, y, color);
        case Rectangle(x1, y1, x2, y2) => ok := img.FillRectangle(x1, y1, x2, y2, color);
      }
    }
  }
}
