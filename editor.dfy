/**
 * The Image class of pg_01/pg_01_05_graphical_editor/Image.java and its twin
 * in pg_01_/pg_01_05_graphical_editor/Main.java, which behaves the same: a
 * grid of character pixels addressed with 1-based (column, row)
 * coordinates. Java's `char[height][width]` is an array2 whose first index
 * is the row.
 *
 * The drawing methods index the array as Java does and paint the cells its
 * loops reach before the first bad index, where Java throws
 * ArrayIndexOutOfBoundsException. Their ok result says whether the whole
 * shape fits. Java throws for every shape that does not fit but one: when
 * the smaller coordinate is Integer.MIN_VALUE, `Math.min(..) - 1` wraps to
 * Integer.MAX_VALUE and the loop does not run. Nothing is painted then,
 * as here, so the pixels agree in every case.
 */
module GraphicalEditor {

  /** The colour of a cleared pixel. */
  const Blank := 'O'

  function Min(a: int, b: int): int { if a <= b then a else b }
  function Max(a: int, b: int): int { if a <= b then b else a }

  /** The drawing operations, in the 1-based coordinates of the Java methods. */
  datatype Shape =
    | Pixel(x: int, y: int)
    | Vertical(x: int, y1: int, y2: int)
    | Horizontal(x1: int, x2: int, y: int)
    | Rectangle(x1: int, y1: int, x2: int, y2: int)

  /** An inclusive, 1-based block of rows top..bottom and columns left..right. */
  datatype Box = Box(top: int, left: int, bottom: int, right: int)

  /** The block a shape spans: its endpoints may come in either order. */
  function Bounds(s: Shape): (b: Box)
    ensures b.top <= b.bottom && b.left <= b.right
  {
    match s
    case Pixel(x, y) => Box(y, x, y, x)
    case Vertical(x, y1, y2) => Box(Min(y1, y2), x, Max(y1, y2), x)
    case Horizontal(x1, x2, y) => Box(y, Min(x1, x2), y, Max(x1, x2))
    case Rectangle(x1, y1, x2, y2) => Box(Min(y1, y2), Min(x1, x2), Max(y1, y2), Max(x1, x2))
  }

  /** Every cell of the block lies in an image of the given height and width. */
  predicate Fits(b: Box, height: int, width: int)
  {
    1 <= b.top && 1 <= b.left && b.bottom <= height && b.right <= width
  }

  /**
   * Whether Java's loops over the block (rows outer, columns inner, each
   * upwards from the smaller end) paint the 0-based cell (r, c) of an image
   * of the given width before the first out-of-range index: nothing when the
   * block starts above or left of the image; only the cells of the first
   * row when the block reaches past the right edge (the exception comes at
   * the end of that row); and every row that exists otherwise. A line or a
   * pixel is a block one column or one row wide, and its loop stops in the
   * same places.
   */
  predicate Covers(b: Box, width: int, r: int, c: int)
  {
    && 1 <= b.top && 1 <= b.left
    && b.top - 1 <= r <= b.bottom - 1 && b.left - 1 <= c <= b.right - 1
    && (b.right <= width || r == b.top - 1)
  }

  /** When nothing is out of range, exactly the cells of the block are painted. */
  lemma CoversWhenFits(b: Box, height: int, width: int, r: int, c: int)
    requires Fits(b, height, width) && 0 <= r < height && 0 <= c < width
    ensures Covers(b, width, r, c) <==> b.top <= r + 1 <= b.bottom && b.left <= c + 1 <= b.right
  {
  }

  /** Swapping the endpoints of a line or the corners of a rectangle paints the same cells. */
  lemma EndpointOrderIrrelevant(x: int, y: int, x1: int, y1: int, x2: int, y2: int)
    ensures Bounds(Vertical(x, y1, y2)) == Bounds(Vertical(x, y2, y1))
    ensures Bounds(Horizontal(x1, x2, y)) == Bounds(Horizontal(x2, x1, y))
    ensures Bounds(Rectangle(x1, y1, x2, y2)) == Bounds(Rectangle(x2, y2, x1, y1))
    ensures Bounds(Rectangle(x1, y1, x2, y2)) == Bounds(Rectangle(x2, y1, x1, y2))
  {
  }

  /* ---- Flood fill, on the value of the grid ---- */

  /** A 0-based (row, column) position. */
  datatype Cell = Cell(row: int, col: int)

  ghost predicate IsCell(g: seq<seq<char>>, p: Cell)
  {
    0 <= p.row < |g| && 0 <= p.col < |g[p.row]|
  }

  ghost function At(g: seq<seq<char>>, p: Cell): char
    requires IsCell(g, p)
  {
    g[p.row][p.col]
  }

  /** The four neighbours `fill` recurses into. */
  predicate Adjacent(p: Cell, q: Cell)
  {
    || (p.row == q.row && (q.col == p.col + 1 || q.col == p.col - 1))
    || (p.col == q.col && (q.row == p.row + 1 || q.row == p.row - 1))
  }

  /** The cells of a given colour. */
  ghost function Region(g: seq<seq<char>>, color: char): set<Cell>
  {
    set r, c | 0 <= r < |g| && 0 <= c < |g[r]| && g[r][c] == color :: Cell(r, c)
  }

  lemma InRegion(g: seq<seq<char>>, color: char, p: Cell)
    ensures p in Region(g, color) <==> IsCell(g, p) && At(g, p) == color
  {
    if IsCell(g, p) && At(g, p) == color {
      assert Cell(p.row, p.col) in Region(g, color);
    }
  }

  /** A walk through the region, each cell adjacent to the one before. */
  ghost predicate IsPath(region: set<Cell>, path: seq<Cell>)
  {
    && (forall k :: 0 <= k < |path| ==> path[k] in region)
    && (forall k :: 0 < k < |path| ==> Adjacent(path[k - 1], path[k]))
  }

  /** `to` is 4-connected to `from` through cells of the region. */
  ghost predicate Connected(region: set<Cell>, from: Cell, to: Cell)
  {
    exists path :: |path| > 0 && path[0] == from && path[|path| - 1] == to && IsPath(region, path)
  }

  /**
   * The reference flood fill: every pixel 4-connected to the start through
   * pixels of the start's colour takes the new colour; all others keep theirs.
   */
  ghost function FloodFilled(g: seq<seq<char>>, start: Cell, color: char): (f: seq<seq<char>>)
    requires IsCell(g, start)
  {
    var region := Region(g, At(g, start));
    seq(|g|, r requires 0 <= r < |g| =>
      seq(|g[r]|, c requires 0 <= c < |g[r]| =>
        if Connected(region, start, Cell(r, c)) then color else g[r][c]))
  }

  ghost predicate SameShape(a: seq<seq<char>>, b: seq<seq<char>>)
  {
    |a| == |b| && forall r :: 0 <= r < |a| ==> |a[r]| == |b[r]|
  }

  /** Going from a to b, the only change is `from` turned into `to`. */
  ghost predicate Recolours(a: seq<seq<char>>, b: seq<seq<char>>, from: char, to: char)
  {
    SameShape(a, b) && forall p :: IsCell(a, p) ==> IsCell(b, p) && (At(b, p) == At(a, p) || (At(a, p) == from && At(b, p) == to))
  }

  /** No neighbour of p has the colour. */
  ghost predicate NeighboursNot(g: seq<seq<char>>, p: Cell, color: char)
  {
    forall q :: IsCell(g, q) && Adjacent(p, q) ==> At(g, q) != color
  }

  /** In b, every cell changed since a has no neighbour left in the colour. */
  ghost predicate Settled(a: seq<seq<char>>, b: seq<seq<char>>, color: char)
  {
    SameShape(a, b) && forall p :: IsCell(a, p) && IsCell(b, p) && At(b, p) != At(a, p) ==> NeighboursNot(b, p, color)
  }

  /** Every cell changed since a is connected to the start through cells that had the colour in a. */
  ghost predicate FromStart(a: seq<seq<char>>, b: seq<seq<char>>, color: char, start: Cell)
  {
    SameShape(a, b) && forall p :: IsCell(a, p) && IsCell(b, p) && At(b, p) != At(a, p) ==> Connected(Region(a, color), start, p)
  }

  /**
   * What one call of `fill` from the cell q does, from grid a to grid b: it
   * only turns `from` into `to`, leaves every changed cell settled and
   * reached from q, and leaves q itself without the colour `from`.
   */
  ghost predicate FillsFrom(a: seq<seq<char>>, b: seq<seq<char>>, from: char, to: char, q: Cell)
  {
    && Recolours(a, b, from, to) && Settled(a, b, from) && FromStart(a, b, from, q)
    && (IsCell(b, q) ==> At(b, q) != from)
  }

  /** A call of `fill` that returns at once. */
  lemma FillsNothing(g: seq<seq<char>>, from: char, to: char, q: Cell)
    requires IsCell(g, q) ==> At(g, q) != from
    ensures FillsFrom(g, g, from, to, q)
  {
  }

  lemma ConnectedInRegion(region: set<Cell>, from: Cell, to: Cell)
    requires Connected(region, from, to)
    ensures from in region && to in region
  {
  }

  /** Recolouring never adds a cell of the colour it removes. */
  lemma RegionShrinks(a: seq<seq<char>>, b: seq<seq<char>>, from: char, to: char)
    requires Recolours(a, b, from, to) && from != to
    ensures Region(b, from) <= Region(a, from)
  {
    forall p | p in Region(b, from) ensures p in Region(a, from) {
      InRegion(b, from, p);
      InRegion(a, from, p);
    }
  }

  lemma RecoloursTrans(a: seq<seq<char>>, b: seq<seq<char>>, c: seq<seq<char>>, from: char, to: char)
    requires Recolours(a, b, from, to) && Recolours(b, c, from, to)
    ensures Recolours(a, c, from, to)
  {
  }

  lemma SettledTrans(a: seq<seq<char>>, b: seq<seq<char>>, c: seq<seq<char>>, from: char, to: char)
    requires Recolours(a, b, from, to) && Recolours(b, c, from, to)
    requires Settled(a, b, from) && Settled(b, c, from)
    ensures Settled(a, c, from)
  {
    forall p | IsCell(a, p) && IsCell(c, p) && At(c, p) != At(a, p) ensures NeighboursNot(c, p, from) {
      if At(b, p) != At(a, p) {
        assert NeighboursNot(b, p, from);
        forall q | IsCell(c, q) && Adjacent(p, q) ensures At(c, q) != from {
          assert IsCell(b, q);
        }
      }
    }
  }

  /** A walk from q, a neighbour of the start, extended by the start. */
  lemma Prepend(region: set<Cell>, sub: set<Cell>, start: Cell, q: Cell, p: Cell)
    requires sub <= region && start in region && Adjacent(start, q)
    requires Connected(sub, q, p)
    ensures Connected(region, start, p)
  {
    var path :| |path| > 0 && path[0] == q && path[|path| - 1] == p && IsPath(sub, path);
    var longer := [start] + path;
    assert longer[|longer| - 1] == p;
    assert IsPath(region, longer);
  }

  lemma FromStartTrans(a: seq<seq<char>>, b: seq<seq<char>>, c: seq<seq<char>>, from: char, start: Cell, q: Cell)
    requires SameShape(b, c) && Region(b, from) <= Region(a, from)
    requires start in Region(a, from) && Adjacent(start, q)
    requires FromStart(a, b, from, start) && FromStart(b, c, from, q)
    ensures FromStart(a, c, from, start)
  {
    forall p | IsCell(a, p) && IsCell(c, p) && At(c, p) != At(a, p) ensures Connected(Region(a, from), start, p) {
      if At(b, p) == At(a, p) {
        Prepend(Region(a, from), Region(b, from), start, q, p);
      }
    }
  }

  /** A cell without the colour being removed is left alone. */
  lemma Untouched(a: seq<seq<char>>, b: seq<seq<char>>, from: char, to: char, p: Cell)
    requires Recolours(a, b, from, to) && IsCell(a, p) && At(a, p) != from
    ensures IsCell(b, p) && At(b, p) == At(a, p)
  {
  }

  /** The first statement of `fill`: the start, of the old colour, takes the new one. */
  lemma PaintStart(g0: seq<seq<char>>, g1: seq<seq<char>>, from: char, to: char, s: Cell)
    requires from != to && IsCell(g0, s) && At(g0, s) == from
    requires g1 == g0[s.row := g0[s.row][s.col := to]]
    ensures SameShape(g0, g1) && At(g1, s) == to
    ensures forall p :: IsCell(g0, p) && p != s ==> At(g1, p) == At(g0, p)
    ensures Recolours(g0, g1, from, to) && FromStart(g0, g1, from, s)
    ensures Region(g1, from) < Region(g0, from)
  {
    assert IsPath(Region(g0, from), [s]) by { InRegion(g0, from, s); }
    assert Connected(Region(g0, from), s, s);
    RegionShrinks(g0, g1, from, to);
    InRegion(g0, from, s);
    InRegion(g1, from, s);
  }

  /** The calls from the start's neighbours, put together: the start's neighbours lose the old colour. */
  lemma NeighboursComposed(g1: seq<seq<char>>, g2: seq<seq<char>>, g3: seq<seq<char>>,
                           g4: seq<seq<char>>, g5: seq<seq<char>>, from: char, to: char, s: Cell)
    requires FillsFrom(g1, g2, from, to, Cell(s.row, s.col + 1))
    requires FillsFrom(g2, g3, from, to, Cell(s.row, s.col - 1))
    requires FillsFrom(g3, g4, from, to, Cell(s.row + 1, s.col))
    requires FillsFrom(g4, g5, from, to, Cell(s.row - 1, s.col))
    ensures Recolours(g1, g5, from, to) && Settled(g1, g5, from) && NeighboursNot(g5, s, from)
  {
    RecoloursTrans(g1, g2, g3, from, to);
    RecoloursTrans(g1, g3, g4, from, to);
    RecoloursTrans(g1, g4, g5, from, to);
    SettledTrans(g1, g2, g3, from, to);
    SettledTrans(g1, g3, g4, from, to);
    SettledTrans(g1, g4, g5, from, to);
    RecoloursTrans(g2, g3, g4, from, to);
    RecoloursTrans(g2, g4, g5, from, to);
    RecoloursTrans(g3, g4, g5, from, to);
    if IsCell(g2, Cell(s.row, s.col + 1)) { Untouched(g2, g5, from, to, Cell(s.row, s.col + 1)); }
    if IsCell(g3, Cell(s.row, s.col - 1)) { Untouched(g3, g5, from, to, Cell(s.row, s.col - 1)); }
    if IsCell(g4, Cell(s.row + 1, s.col)) { Untouched(g4, g5, from, to, Cell(s.row + 1, s.col)); }
  }

  /** The cells changed by the calls from the start's neighbours are reached from the start. */
  lemma ReachComposed(g0: seq<seq<char>>, g1: seq<seq<char>>, g2: seq<seq<char>>, g3: seq<seq<char>>,
                      g4: seq<seq<char>>, g5: seq<seq<char>>, from: char, to: char, s: Cell)
    requires from != to && s in Region(g0, from)
    requires Recolours(g0, g1, from, to) && FromStart(g0, g1, from, s)
    requires FillsFrom(g1, g2, from, to, Cell(s.row, s.col + 1))
    requires FillsFrom(g2, g3, from, to, Cell(s.row, s.col - 1))
    requires FillsFrom(g3, g4, from, to, Cell(s.row + 1, s.col))
    requires FillsFrom(g4, g5, from, to, Cell(s.row - 1, s.col))
    ensures FromStart(g0, g5, from, s)
  {
    RegionShrinks(g0, g1, from, to);
    RegionShrinks(g1, g2, from, to);
    RegionShrinks(g2, g3, from, to);
    RegionShrinks(g3, g4, from, to);
    FromStartTrans(g0, g1, g2, from, s, Cell(s.row, s.col + 1));
    FromStartTrans(g0, g2, g3, from, s, Cell(s.row, s.col - 1));
    FromStartTrans(g0, g3, g4, from, s, Cell(s.row + 1, s.col));
    FromStartTrans(g0, g4, g5, from, s, Cell(s.row - 1, s.col));
  }

  /**
   * The body of `fill`, put together: painting the start and the four
   * recursive calls add up to one call's guarantee from the start.
   */
  lemma FillComposes(g0: seq<seq<char>>, g1: seq<seq<char>>, g2: seq<seq<char>>, g3: seq<seq<char>>,
                     g4: seq<seq<char>>, g5: seq<seq<char>>, from: char, to: char, s: Cell)
    requires from != to && IsCell(g0, s) && At(g0, s) == from
    requires Recolours(g0, g1, from, to) && FromStart(g0, g1, from, s) && At(g1, s) == to
    requires forall p :: IsCell(g0, p) && p != s ==> At(g1, p) == At(g0, p)
    requires FillsFrom(g1, g2, from, to, Cell(s.row, s.col + 1))
    requires FillsFrom(g2, g3, from, to, Cell(s.row, s.col - 1))
    requires FillsFrom(g3, g4, from, to, Cell(s.row + 1, s.col))
    requires FillsFrom(g4, g5, from, to, Cell(s.row - 1, s.col))
    ensures FillsFrom(g0, g5, from, to, s)
  {
    NeighboursComposed(g1, g2, g3, g4, g5, from, to, s);
    RecoloursTrans(g0, g1, g5, from, to);
    assert Settled(g0, g5, from) by {
      forall p | IsCell(g0, p) && IsCell(g5, p) && At(g5, p) != At(g0, p) ensures NeighboursNot(g5, p, from) {
        if p != s {
          assert At(g5, p) != At(g1, p);
        }
      }
    }
    Untouched(g1, g5, from, to, s);
    InRegion(g0, from, s);
    ReachComposed(g0, g1, g2, g3, g4, g5, from, to, s);
  }

  /** Along any walk of old-colour cells from the start, the settled fill has repainted every cell. */
  lemma {:induction false} PathRepainted(g: seq<seq<char>>, f: seq<seq<char>>, from: char, to: char, path: seq<Cell>)
    requires from != to && Recolours(g, f, from, to) && Settled(g, f, from)
    requires |path| > 0 && IsPath(Region(g, from), path)
    requires IsCell(f, path[0]) && At(f, path[0]) != from
    ensures IsCell(g, path[|path| - 1]) && At(f, path[|path| - 1]) == to
    decreases |path|
  {
    var last := path[|path| - 1];
    InRegion(g, from, last);
    if |path| > 1 {
      var prefix := path[..|path| - 1];
      assert IsPath(Region(g, from), prefix);
      PathRepainted(g, f, from, to, prefix);
      var p := prefix[|prefix| - 1];
      InRegion(g, from, p);
      assert NeighboursNot(f, p, from);
      assert Adjacent(p, last);
    }
  }

  /** A settled recolouring from the start that changed only reachable cells is the reference flood fill. */
  lemma FillIsFloodFill(g: seq<seq<char>>, f: seq<seq<char>>, from: char, to: char, s: Cell)
    requires from != to && IsCell(g, s) && At(g, s) == from && FillsFrom(g, f, from, to, s)
    ensures f == FloodFilled(g, s, to)
  {
    var ff := FloodFilled(g, s, to);
    var region := Region(g, from);
    forall r | 0 <= r < |f| ensures f[r] == ff[r] {
      forall c | 0 <= c < |f[r]| ensures f[r][c] == ff[r][c] {
        var p := Cell(r, c);
        assert IsCell(g, p) && IsCell(f, p);
        if Connected(region, s, p) {
          var path :| |path| > 0 && path[0] == s && path[|path| - 1] == p && IsPath(region, path);
          PathRepainted(g, f, from, to, path);
        }
      }
    }
  }

  /** Filling with the colour the start already has changes nothing. */
  lemma FloodFilledSameColour(g: seq<seq<char>>, s: Cell)
    requires IsCell(g, s)
    ensures FloodFilled(g, s, At(g, s)) == g
  {
    var ff := FloodFilled(g, s, At(g, s));
    forall r | 0 <= r < |g| ensures ff[r] == g[r] {
      forall c | 0 <= c < |g[r]| ensures ff[r][c] == g[r][c] {
        if Connected(Region(g, At(g, s)), s, Cell(r, c)) {
          ConnectedInRegion(Region(g, At(g, s)), s, Cell(r, c));
          InRegion(g, At(g, s), Cell(r, c));
        }
      }
    }
  }

  /** The image: `pixels[row, column]`, `height` rows of `width` characters. */
  class Image {
    const pixels: array2<char>

    function Height(): int { pixels.Length0 }
    function Width(): int { pixels.Length1 }

    /** The pixels as a value, row by row. */
    ghost function Grid(): (g: seq<seq<char>>)
      reads pixels
      ensures |g| == pixels.Length0
      ensures forall r :: 0 <= r < |g| ==> |g[r]| == pixels.Length1
      ensures forall r, c :: 0 <= r < pixels.Length0 && 0 <= c < pixels.Length1 ==> g[r][c] == pixels[r, c]
    {
      seq(pixels.Length0, r requires 0 <= r < pixels.Length0 reads pixels =>
        seq(pixels.Length1, c requires 0 <= c < pixels.Length1 reads pixels => pixels[r, c]))
    }

    ghost predicate IsBlank()
      reads pixels
    {
      forall r, c :: 0 <= r < pixels.Length0 && 0 <= c < pixels.Length1 ==> pixels[r, c] == Blank
    }

    /** The cells Java's loops reach over the block take the colour; every other pixel keeps its old value. */
    twostate predicate Repainted(b: Box, color: char)
      reads pixels
    {
      forall r, c :: 0 <= r < pixels.Length0 && 0 <= c < pixels.Length1 ==>
        pixels[r, c] == if Covers(b, pixels.Length1, r, c) then color else old(pixels[r, c])
    }

    /** `new char[height][width]`, then `clear()`. */
    constructor (width: int, height: int)
      requires 0 <= width && 0 <= height
      ensures fresh(pixels) && Height() == height && Width() == width
      ensures IsBlank()
    {
      pixels := new char[height, width];
      new;
      Clear();
    }

    /** clear: every pixel back to 'O'. */
    method Clear()
      modifies pixels
      ensures IsBlank()
    {
      for r := 0 to pixels.Length0
        invariant forall i, j :: 0 <= i < r && 0 <= j < pixels.Length1 ==> pixels[i, j] == Blank
      {
        for c := 0 to pixels.Length1
          invariant forall i, j :: 0 <= i < r && 0 <= j < pixels.Length1 ==> pixels[i, j] == Blank
          invariant forall j :: 0 <= j < c ==> pixels[r, j] == Blank
        {
          pixels[r, c] := Blank;
        }
      }
    }

    /** colorPixel: pixel [y-1][x-1] takes the colour, if it exists. */
    method ColorPixel(x: int, y: int, color: char) returns (ok: bool)
      modifies pixels
      ensures ok <==> Fits(Bounds(Pixel(x, y)), Height(), Width())
      ensures Repainted(Bounds(Pixel(x, y)), color)
    {
      if !(1 <= y <= pixels.Length0 && 1 <= x <= pixels.Length1) {
        return false;
      }
      pixels[y - 1, x - 1] := color;
      return true;
    }

    /** verticalLine: column x-1, rows min(y1,y2)-1 up to max(y1,y2)-1. */
    method VerticalLine(x: int, y1: int, y2: int, color: char) returns (ok: bool)
      modifies pixels
      ensures ok <==> Fits(Bounds(Vertical(x, y1, y2)), Height(), Width())
      ensures Repainted(Bounds(Vertical(x, y1, y2)), color)
    {
      var from, to := Min(y1, y2) - 1, Max(y1, y2) - 1;
      for i := from to to + 1
        invariant i > from ==> 0 <= from && 0 <= x - 1 < pixels.Length1 && i <= pixels.Length0
        invariant forall r, c :: 0 <= r < pixels.Length0 && 0 <= c < pixels.Length1 ==>
          pixels[r, c] == if c == x - 1 && from <= r < i then color else old(pixels[r, c])
      {
        if !(0 <= i < pixels.Length0 && 0 <= x - 1 < pixels.Length1) {
          return false;
        }
        pixels[i, x - 1] := color;
      }
      return true;
    }

    /** horizontalLine: row y-1, columns min(x1,x2)-1 up to max(x1,x2)-1. */
    method HorizontalLine(x1: int, x2: int, y: int, color: char) returns (ok: bool)
      modifies pixels
      ensures ok <==> Fits(Bounds(Horizontal(x1, x2, y)), Height(), Width())
      ensures Repainted(Bounds(Horizontal(x1, x2, y)), color)
    {
      var from, to := Min(x1, x2) - 1, Max(x1, x2) - 1;
      for i := from to to + 1
        invariant i > from ==> 0 <= from && 0 <= y - 1 < pixels.Length0 && i <= pixels.Length1
        invariant forall r, c :: 0 <= r < pixels.Length0 && 0 <= c < pixels.Length1 ==>
          pixels[r, c] == if r == y - 1 && from <= c < i then color else old(pixels[r, c])
      {
        if !(0 <= y - 1 < pixels.Length0 && 0 <= i < pixels.Length1) {
          return false;
        }
        pixels[y - 1, i] := color;
      }
      return true;
    }

    /** fillRectangle: rows min(y1,y2)-1..max(y1,y2)-1, each from column min(x1,x2)-1 to max(x1,x2)-1. */
    method FillRectangle(x1: int, y1: int, x2: int, y2: int, color: char) returns (ok: bool)
      modifies pixels
      ensures ok <==> Fits(Bounds(Rectangle(x1, y1, x2, y2)), Height(), Width())
      ensures Repainted(Bounds(Rectangle(x1, y1, x2, y2)), color)
    {
      var top, bottom := Min(y1, y2) - 1, Max(y1, y2) - 1;
      var left, right := Min(x1, x2) - 1, Max(x1, x2) - 1;
      for i := top to bottom + 1
        invariant i > top ==> 0 <= top && 0 <= left && right < pixels.Length1 && i <= pixels.Length0
        invariant forall r, c :: 0 <= r < pixels.Length0 && 0 <= c < pixels.Length1 ==>
          pixels[r, c] == if top <= r < i && left <= c <= right then color else old(pixels[r, c])
      {
        for j := left to right + 1
          invariant j > left ==> 0 <= i < pixels.Length0 && 0 <= left && j <= pixels.Length1
          invariant forall r, c :: 0 <= r < pixels.Length0 && 0 <= c < pixels.Length1 ==>
            pixels[r, c] == if (top <= r < i && left <= c <= right) || (r == i && left <= c < j) then color else old(pixels[r, c])
        {
          if !(0 <= i < pixels.Length0 && 0 <= j < pixels.Length1) {
            return false;
          }
          pixels[i, j] := color;
        }
      }
      return true;
    }

    /** One assignment `pixels[r][c] = color`, seen on the grid. */
    method Put(r: int, c: int, color: char)
      requires 0 <= r < pixels.Length0 && 0 <= c < pixels.Length1
      modifies pixels
      ensures Grid() == old(Grid())[r := old(Grid())[r][c := color]]
    {
      ghost var g := Grid();
      pixels[r, c] := color;
      ghost var h := g[r := g[r][c := color]];
      assert forall i :: 0 <= i < |h| ==> Grid()[i] == h[i];
    }

    /**
     * floodFill: read the start pixel [y-1][x-1] (throwing when it does not
     * exist); if it already has the new colour stop, otherwise fill from it.
     */
    method FloodFill(x: int, y: int, newColor: char) returns (ok: bool)
      modifies pixels
      ensures ok <==> 1 <= x <= Width() && 1 <= y <= Height()
      ensures !ok ==> Grid() == old(Grid())
      ensures ok ==> Grid() == FloodFilled(old(Grid()), Cell(y - 1, x - 1), newColor)
    {
      if !(1 <= y <= pixels.Length0 && 1 <= x <= pixels.Length1) {
        return false;
      }
      var oldColor := pixels[y - 1, x - 1];
      if oldColor == newColor {
        FloodFilledSameColour(Grid(), Cell(y - 1, x - 1));
        return true;
      }
      ghost var g := Grid();
      Fill(x - 1, y - 1, oldColor, newColor);
      FillIsFloodFill(g, Grid(), oldColor, newColor, Cell(y - 1, x - 1));
      return true;
    }

    /**
     * fill (floodFillRecursive in the second copy), on 0-based (x, y): stop
     * outside the image or at a pixel without the old colour; otherwise
     * repaint the pixel and recurse right, left, down, up. Each painting
     * call removes a pixel from the old colour's region, which decreases.
     */
    method Fill(x: int, y: int, oldColor: char, newColor: char)
      requires oldColor != newColor
      modifies pixels
      ensures FillsFrom(old(Grid()), Grid(), oldColor, newColor, Cell(y, x))
      decreases Region(Grid(), oldColor)
    {
      if x < 0 || x >= pixels.Length1 || y < 0 || y >= pixels.Length0 {
        FillsNothing(Grid(), oldColor, newColor, Cell(y, x));
        return;
      }
      if pixels[y, x] != oldColor {
        FillsNothing(Grid(), oldColor, newColor, Cell(y, x));
        return;
      }
      ghost var s := Cell(y, x);
      ghost var g0 := Grid();
      Put(y, x, newColor);
      ghost var g1 := Grid();
      PaintStart(g0, g1, oldColor, newColor, s);
      Fill(x + 1, y, oldColor, newColor);
      ghost var g2 := Grid();
      RegionShrinks(g1, g2, oldColor, newColor);
      Fill(x - 1, y, oldColor, newColor);
      ghost var g3 := Grid();
      RegionShrinks(g2, g3, oldColor, newColor);
      Fill(x, y + 1, oldColor, newColor);
      ghost var g4 := Grid();
      RegionShrinks(g3, g4, oldColor, newColor);
      Fill(x, y - 1, oldColor, newColor);
      FillComposes(g0, g1, g2, g3, g4, Grid(), oldColor, newColor, s);
    }
  }
}
