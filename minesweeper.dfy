/**
 * Minesweeper neighbour counting: count_adjacent_mines and
 * solve_minesweeper of pg_01/pg_01_02_minesweeper/pg_01_02_minesweeper.c,
 * countAdjacentMines of pg_01/pg_01_02_minesweeper/main.c (the same loop
 * over the same eight offsets), and countAdjacentMines of
 * pg_02_minesweeper.c, which computes the probed column from the row.
 *
 * A grid is a read-only sequence of rows, of which the first `rows` are
 * used, each with at least `cols` cells.
 */
module Minesweeper {

  const Mine := '*'

  /** The eight offsets, in the order of the `directions` tables. */
  const Directions: seq<(int, int)> := [(-1, -1), (-1, 0), (-1, 1), (0, -1), (0, 1), (1, -1), (1, 0), (1, 1)]

  predicate IsGrid(g: seq<seq<char>>, rows: int, cols: int)
  {
    0 <= rows <= |g| && 0 <= cols && forall r :: 0 <= r < rows ==> cols <= |g[r]|
  }

  /** The position lies in the grid and holds a mine. */
  predicate IsMine(g: seq<seq<char>>, rows: int, cols: int, p: (int, int))
    requires IsGrid(g, rows, cols)
  {
    0 <= p.0 < rows && 0 <= p.1 < cols && g[p.0][p.1] == Mine
  }

  /** The i-th probed position around (row, col). */
  function Probe(row: int, col: int, i: nat): (p: (int, int))
    requires i < 8
  {
    (row + Directions[i].0, col + Directions[i].1)
  }

  /**
   * The mines around (row, col): the positions at most one row and one
   * column away, the position itself excluded, that lie in the grid and
   * hold a mine.
   */
  ghost function Ring(g: seq<seq<char>>, rows: int, cols: int, row: int, col: int): set<(int, int)>
    requires IsGrid(g, rows, cols)
  {
    set r, c | row - 1 <= r <= row + 1 && col - 1 <= c <= col + 1 && (r, c) != (row, col) && IsMine(g, rows, cols, (r, c)) :: (r, c)
  }

  /** The reference count: how many mines are around the cell. */
  ghost function MinesAround(g: seq<seq<char>>, rows: int, cols: int, row: int, col: int): nat
    requires IsGrid(g, rows, cols)
  {
    |Ring(g, rows, cols, row, col)|
  }

  /** The mines among the first n probes: what the counting loop has seen after n turns. */
  function MinesAmong(g: seq<seq<char>>, rows: int, cols: int, row: int, col: int, n: nat): nat
    requires IsGrid(g, rows, cols) && n <= 8
  {
    if n == 0 then 0
    else MinesAmong(g, rows, cols, row, col, n - 1) + (if IsMine(g, rows, cols, Probe(row, col, n - 1)) then 1 else 0)
  }

  /** The mines among the first n probes, as a set of positions. */
  ghost function Probed(g: seq<seq<char>>, rows: int, cols: int, row: int, col: int, n: nat): set<(int, int)>
    requires IsGrid(g, rows, cols) && n <= 8
  {
    if n == 0 then {}
    else
      var p := Probe(row, col, n - 1);
      Probed(g, rows, cols, row, col, n - 1) + (if IsMine(g, rows, cols, p) then {p} else {})
  }

  /** The position of each offset of the table: the eight offsets are distinct. */
  function DirectionIndex(dr: int, dc: int): (k: nat)
    requires -1 <= dr <= 1 && -1 <= dc <= 1 && (dr, dc) != (0, 0)
    ensures k < 8 && Directions[k] == (dr, dc)
    ensures forall j :: 0 <= j < 8 && Directions[j] == (dr, dc) ==> j == k
  {
    if dr == -1 then (if dc == -1 then 0 else if dc == 0 then 1 else 2)
    else if dr == 0 then (if dc == -1 then 3 else 4)
    else (if dc == -1 then 5 else if dc == 0 then 6 else 7)
  }

  /** A probe not yet taken is not among the positions counted so far. */
  lemma {:induction false} NotYetProbed(g: seq<seq<char>>, rows: int, cols: int, row: int, col: int, n: nat, j: nat)
    requires IsGrid(g, rows, cols) && n <= j < 8
    ensures Probe(row, col, j) !in Probed(g, rows, cols, row, col, n)
  {
    if n > 0 {
      NotYetProbed(g, rows, cols, row, col, n - 1, j);
      var d := Directions[n - 1];
      assert DirectionIndex(d.0, d.1) == n - 1;
    }
  }

  lemma {:induction false} ProbedCount(g: seq<seq<char>>, rows: int, cols: int, row: int, col: int, n: nat)
    requires IsGrid(g, rows, cols) && n <= 8
    ensures |Probed(g, rows, cols, row, col, n)| == MinesAmong(g, rows, cols, row, col, n)
  {
    if n > 0 {
      ProbedCount(g, rows, cols, row, col, n - 1);
      NotYetProbed(g, rows, cols, row, col, n - 1, n - 1);
    }
  }

  /** The positions counted so far are probed mines around the cell, and every probed mine is counted. */
  lemma {:induction false} ProbedMembers(g: seq<seq<char>>, rows: int, cols: int, row: int, col: int, n: nat)
    requires IsGrid(g, rows, cols) && n <= 8
    ensures forall p :: p in Probed(g, rows, cols, row, col, n) ==>
              IsMine(g, rows, cols, p) && row - 1 <= p.0 <= row + 1 && col - 1 <= p.1 <= col + 1 && p != (row, col)
    ensures forall k :: 0 <= k < n && IsMine(g, rows, cols, Probe(row, col, k)) ==> Probe(row, col, k) in Probed(g, rows, cols, row, col, n)
  {
    if n > 0 {
      ProbedMembers(g, rows, cols, row, col, n - 1);
    }
  }

  /** The eight probes reach exactly the mines around the cell. */
  lemma ProbedIsRing(g: seq<seq<char>>, rows: int, cols: int, row: int, col: int, n: nat)
    requires IsGrid(g, rows, cols) && n == 8
    ensures Probed(g, rows, cols, row, col, n) == Ring(g, rows, cols, row, col)
  {
    ProbedMembers(g, rows, cols, row, col, n);
    var ring := Ring(g, rows, cols, row, col);
    var probed := Probed(g, rows, cols, row, col, n);
    forall p | p in ring ensures p in probed {
      var k := DirectionIndex(p.0 - row, p.1 - col);
      assert Probe(row, col, k) == p;
    }
    forall p | p in probed ensures p in ring {
      assert (p.0, p.1) in ring;
    }
  }

  /** Counting over the eight directions counts exactly the mines around the cell. */
  lemma MinesAmongAll(g: seq<seq<char>>, rows: int, cols: int, row: int, col: int)
    requires IsGrid(g, rows, cols)
    ensures MinesAmong(g, rows, cols, row, col, 8) == MinesAround(g, rows, cols, row, col)
  {
    ProbedCount(g, rows, cols, row, col, 8);
    ProbedIsRing(g, rows, cols, row, col, 8);
  }

  /** The count never exceeds the number of probes. */
  lemma {:induction false} MinesAmongBound(g: seq<seq<char>>, rows: int, cols: int, row: int, col: int, n: nat)
    requires IsGrid(g, rows, cols) && n <= 8
    ensures MinesAmong(g, rows, cols, row, col, n) <= n
  {
    if n > 0 {
      MinesAmongBound(g, rows, cols, row, col, n - 1);
    }
  }

  /** A cell's own content never enters its count. */
  lemma OwnCellIgnored(g: seq<seq<char>>, rows: int, cols: int, row: int, col: int, content: char)
    requires IsGrid(g, rows, cols) && 0 <= row < rows && 0 <= col < cols
    ensures IsGrid(g[row := g[row][col := content]], rows, cols)
    ensures MinesAround(g[row := g[row][col := content]], rows, cols, row, col) == MinesAround(g, rows, cols, row, col)
  {
    var h := g[row := g[row][col := content]];
    assert IsGrid(h, rows, cols);
    var S := Ring(g, rows, cols, row, col);
    var T := Ring(h, rows, cols, row, col);
    forall p | p in S ensures p in T {
      assert IsMine(h, rows, cols, p);
    }
    forall p | p in T ensures p in S {
      assert IsMine(g, rows, cols, p);
    }
    assert S == T;
  }

  /**
   * count_adjacent_mines (and countAdjacentMines of main.c): probe the eight
   * offsets, skip positions outside the grid, count the mines.
   */
  method CountAdjacentMines(g: seq<seq<char>>, rows: int, cols: int, row: int, col: int) returns (count: int)
    requires IsGrid(g, rows, cols)
    ensures count == MinesAround(g, rows, cols, row, col)
    ensures 0 <= count <= 8
  {
    count := 0;
    for i := 0 to 8
      invariant count == MinesAmong(g, rows, cols, row, col, i)
    {
      var r := row + Directions[i].0;
      var c := col + Directions[i].1;
      if r >= 0 && r < rows && c >= 0 && c < cols {
        if g[r][c] == Mine {
          count := count + 1;
        }
      }
    }
    MinesAmongAll(g, rows, cols, row, col);
    MinesAmongBound(g, rows, cols, row, col, 8);
  }

  /**
   * countAdjacentMines of pg_02_minesweeper.c as written: the probed column
   * is `row + dc`, so the cell counted around is (row, row) and the column
   * argument is never read.
   */
  method CountAdjacentMinesAsWritten(g: seq<seq<char>>, rows: int, cols: int, row: int, column: int) returns (count: int)
    requires IsGrid(g, rows, cols)
    ensures count == MinesAround(g, rows, cols, row, row)
    ensures 0 <= count <= 8
  {
    count := 0;
    for i := 0 to 8
      invariant count == MinesAmong(g, rows, cols, row, row, i)
    {
      var newRow := row + Directions[i].0;
      var newCol := row + Directions[i].1;
      if newRow >= 0 && newRow < rows && newCol >= 0 && newCol < cols {
        if g[newRow][newCol] == Mine {
          count := count + 1;
        }
      }
    }
    MinesAmongAll(g, rows, cols, row, row);
    MinesAmongBound(g, rows, cols, row, row, 8);
  }

  /**
   * The input that shows the pg_02 bug: in the one-row grid "*.", the cell
   * (0, 1) touches the mine, but the as-written count for it is 0, the
   * count around (0, 0).
   */
  lemma AsWrittenMiscounts()
    ensures IsGrid(["*."], 1, 2)
    ensures MinesAround(["*."], 1, 2, 0, 0) == 0
    ensures MinesAround(["*."], 1, 2, 0, 1) == 1
  {
    MinesAmongAll(["*."], 1, 2, 0, 0);
    MinesAmongAll(["*."], 1, 2, 0, 1);
  }

  /** The character solve_minesweeper writes for a cell: the mine, or the digit '0' + count. */
  function SolvedCell(g: seq<seq<char>>, rows: int, cols: int, r: int, c: int): char
    requires IsGrid(g, rows, cols) && 0 <= r < rows && 0 <= c < cols
  {
    if g[r][c] == Mine then Mine
    else
      assert MinesAmong(g, rows, cols, r, c, 8) <= 8 by { MinesAmongBound(g, rows, cols, r, c, 8); }
      ('0' as int + MinesAmong(g, rows, cols, r, c, 8)) as char
  }

  /** A solved cell is a mine exactly where the input has one, and otherwise the digit of the reference count. */
  lemma SolvedCellMeaning(g: seq<seq<char>>, rows: int, cols: int, r: int, c: int)
    requires IsGrid(g, rows, cols) && 0 <= r < rows && 0 <= c < cols
    ensures SolvedCell(g, rows, cols, r, c) == Mine <==> g[r][c] == Mine
    ensures g[r][c] != Mine ==> '0' <= SolvedCell(g, rows, cols, r, c) <= '8'
    ensures g[r][c] != Mine ==> SolvedCell(g, rows, cols, r, c) as int - '0' as int == MinesAround(g, rows, cols, r, c)
  {
    MinesAmongAll(g, rows, cols, r, c);
    MinesAmongBound(g, rows, cols, r, c, 8);
  }

  /** The worked example of `main`: mines at (0,0) and (1,1) solve to *21 / 2*1 / 111. */
  lemma WorkedExample()
    ensures IsGrid(["*..", ".*.", "..."], 3, 3)
    ensures SolvedCell(["*..", ".*.", "..."], 3, 3, 0, 0) == '*'
    ensures SolvedCell(["*..", ".*.", "..."], 3, 3, 0, 1) == '2'
    ensures SolvedCell(["*..", ".*.", "..."], 3, 3, 0, 2) == '1'
    ensures SolvedCell(["*..", ".*.", "..."], 3, 3, 1, 0) == '2'
    ensures SolvedCell(["*..", ".*.", "..."], 3, 3, 1, 1) == '*'
    ensures SolvedCell(["*..", ".*.", "..."], 3, 3, 1, 2) == '1'
    ensures SolvedCell(["*..", ".*.", "..."], 3, 3, 2, 0) == '1'
    ensures SolvedCell(["*..", ".*.", "..."], 3, 3, 2, 1) == '1'
    ensures SolvedCell(["*..", ".*.", "..."], 3, 3, 2, 2) == '1'
  {
  }

  /**
   * solve_minesweeper: output[r][c] is '*' for a mine and '0' + count
   * otherwise, for r < rows and c < cols; nothing else is written.
   */
  method SolveMinesweeper(input: seq<seq<char>>, output: array2<char>, rows: int, cols: int)
    requires IsGrid(input, rows, cols) && rows <= output.Length0 && cols <= output.Length1
    modifies output
    ensures forall r, c :: 0 <= r < rows && 0 <= c < cols ==> output[r, c] == SolvedCell(input, rows, cols, r, c)
    ensures forall r, c :: 0 <= r < output.Length0 && 0 <= c < output.Length1 && !(r < rows && c < cols) ==>
              output[r, c] == old(output[r, c])
  {
    for r := 0 to rows
      invariant forall i, j :: 0 <= i < r && 0 <= j < cols ==> output[i, j] == SolvedCell(input, rows, cols, i, j)
      invariant forall i, j :: 0 <= i < output.Length0 && 0 <= j < output.Length1 && !(i < r && j < cols) ==>
                  output[i, j] == old(output[i, j])
    {
      for c := 0 to cols
        invariant forall i, j :: 0 <= i < r && 0 <= j < cols ==> output[i, j] == SolvedCell(input, rows, cols, i, j)
        invariant forall j :: 0 <= j < c ==> output[r, j] == SolvedCell(input, rows, cols, r, j)
        invariant forall i, j :: 0 <= i < output.Length0 && 0 <= j < output.Length1 && !(i < r && j < cols) && !(i == r && j < c) ==>
                    output[i, j] == old(output[i, j])
      {
        if input[r][c] == Mine {
          output[r, c] := Mine;
        } else {
          var count := CountAdjacentMines(input, rows, cols, r, c);
          MinesAmongAll(input, rows, cols, r, c);
          output[r, c] := ('0' as int + count) as char;
        }
      }
    }
  }
}
