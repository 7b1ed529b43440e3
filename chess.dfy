/**
 * The "check the check" detector: given an 8x8 board of characters ('.' is an
 * empty square, lower case is black, upper case is white) it decides whether
 * the white king, the black king or neither is attacked.  Rows are the first
 * coordinate (x), columns the second (y), both 0..7.
 */
module CheckTheCheck {
  import opened Wrappers

  const BoardSize := 8

  type Board = seq<seq<char>>

  /** Eight rows of eight squares. */
  predicate IsBoard(b: Board)
  {
    |b| == BoardSize && forall i :: 0 <= i < BoardSize ==> |b[i]| == BoardSize
  }

  predicate IsInside(x: int, y: int)
  {
    0 <= x < BoardSize && 0 <= y < BoardSize
  }

  function Abs(n: int): nat
  {
    if n < 0 then -n else n
  }

  /** Square (x, y) is on the board and holds piece. */
  predicate PieceAt(b: Board, x: int, y: int, piece: char)
    requires IsBoard(b)
  {
    IsInside(x, y) && b[x][y] == piece
  }

  /** A direction a sliding piece can move in: one step along a row, a column or a diagonal. */
  predicate IsUnitStep(dx: int, dy: int)
  {
    -1 <= dx <= 1 && -1 <= dy <= 1 && (dx != 0 || dy != 0)
  }

  /** How many more squares a walk from (x, y) in direction (dx, dy) can visit before leaving the board. */
  function StepsLeft(x: int, y: int, dx: int, dy: int): nat
    requires IsUnitStep(dx, dy)
  {
    if !IsInside(x, y) then 0
    else if dx == 1 then BoardSize - x
    else if dx == -1 then x + 1
    else if dy == 1 then BoardSize - y
    else y + 1
  }

  // ---------------------------------------------------------------------------
  // The detector, following the four check_* functions
  // ---------------------------------------------------------------------------

  /**
   * The inner while loop of check_rook_queen and check_bishop_queen: walk from
   * (nx, ny) in direction (dx, dy) while inside the board; the first square
   * that is not '.' decides, and the walk never reads past it.
   */
  function RayHits(b: Board, nx: int, ny: int, dx: int, dy: int, p: char, q: char): bool
    requires IsBoard(b) && IsUnitStep(dx, dy)
    decreases StepsLeft(nx, ny, dx, dy)
  {
    if !IsInside(nx, ny) then false
    else if b[nx][ny] != '.' then b[nx][ny] == p || b[nx][ny] == q
    else RayHits(b, nx + dx, ny + dy, dx, dy, p, q)
  }

  predicate AllUnitSteps(dirs: seq<(int, int)>)
  {
    forall i :: 0 <= i < |dirs| ==> IsUnitStep(dirs[i].0, dirs[i].1)
  }

  /** The outer for loop from entry k on: try the directions in table order, stopping at the first hit. */
  function AnyRayHits(b: Board, x: int, y: int, dirs: seq<(int, int)>, k: int, p: char, q: char): bool
    requires IsBoard(b) && AllUnitSteps(dirs) && 0 <= k <= |dirs|
    decreases |dirs| - k
  {
    if k == |dirs| then false
    else RayHits(b, x + dirs[k].0, y + dirs[k].1, dirs[k].0, dirs[k].1, p, q)
         || AnyRayHits(b, x, y, dirs, k + 1, p, q)
  }

  const RookDirections: seq<(int, int)> := [(0, 1), (0, -1), (1, 0), (-1, 0)]
  const BishopDirections: seq<(int, int)> := [(1, 1), (1, -1), (-1, 1), (-1, -1)]
  const KnightMoves: seq<(int, int)> := [(1, 2), (2, 1), (2, -1), (1, -2), (-1, -2), (-2, -1), (-2, 1), (-1, 2)]

  function CheckRookQueen(b: Board, x: int, y: int, enemyRook: char, enemyQueen: char): bool
    requires IsBoard(b)
  {
    AnyRayHits(b, x, y, RookDirections, 0, enemyRook, enemyQueen)
  }

  function CheckBishopQueen(b: Board, x: int, y: int, enemyBishop: char, enemyQueen: char): bool
    requires IsBoard(b)
  {
    AnyRayHits(b, x, y, BishopDirections, 0, enemyBishop, enemyQueen)
  }

  /** The loop of check_knight over a table of jumps, from entry k on. */
  function KnightFrom(b: Board, x: int, y: int, moves: seq<(int, int)>, k: int, enemyKnight: char): bool
    requires IsBoard(b) && 0 <= k <= |moves|
    decreases |moves| - k
  {
    if k == |moves| then false
    else (IsInside(x + moves[k].0, y + moves[k].1) && b[x + moves[k].0][y + moves[k].1] == enemyKnight)
         || KnightFrom(b, x, y, moves, k + 1, enemyKnight)
  }

  function CheckKnight(b: Board, x: int, y: int, enemyKnight: char): bool
    requires IsBoard(b)
  {
    KnightFrom(b, x, y, KnightMoves, 0, enemyKnight)
  }

  /** An enemy pawn of the given letter stands on row `row`, in a column next to y. */
  ghost predicate PawnBeside(b: Board, row: int, y: int, pawn: char)
    requires IsBoard(b)
  {
    exists c :: PieceAt(b, row, c, pawn) && Abs(c - y) == 1
  }

  /**
   * check_pawn: a white king is attacked by a 'p' one row up (x - 1), a black
   * king by a 'P' one row down (x + 1), in either neighbouring column.
   */
  function CheckPawn(b: Board, x: int, y: int, isWhite: bool): (r: bool)
    requires IsBoard(b)
    ensures isWhite ==> (r <==> PawnBeside(b, x - 1, y, 'p'))
    ensures !isWhite ==> (r <==> PawnBeside(b, x + 1, y, 'P'))
  {
    var attackDir := if isWhite then -1 else 1;
    var enemyPawn := if isWhite then 'p' else 'P';
    PieceAt(b, x + attackDir, y - 1, enemyPawn) || PieceAt(b, x + attackDir, y + 1, enemyPawn)
  }

  /** is_king_in_check for the king standing at (x, y). */
  function IsKingInCheck(b: Board, x: int, y: int, checkWhiteKing: bool): bool
    requires IsBoard(b)
  {
    if checkWhiteKing then
      CheckRookQueen(b, x, y, 'r', 'q') || CheckBishopQueen(b, x, y, 'b', 'q')
      || CheckKnight(b, x, y, 'n') || CheckPawn(b, x, y, true)
    else
      CheckRookQueen(b, x, y, 'R', 'Q') || CheckBishopQueen(b, x, y, 'B', 'Q')
      || CheckKnight(b, x, y, 'N') || CheckPawn(b, x, y, false)
  }

  // ---------------------------------------------------------------------------
  // Reference definitions of "attacked", stated by geometry rather than by loops
  // ---------------------------------------------------------------------------

  /** The signed distance covered by k steps of size d (d is -1, 0 or 1). */
  function Offset(d: int, k: int): int
  {
    if d == 1 then k else if d == -1 then -k else 0
  }

  /** Squares lo .. hi-1 steps away from (x, y) in direction (dx, dy) are on the board and empty. */
  ghost predicate ClearBetween(b: Board, x: int, y: int, dx: int, dy: int, lo: int, hi: int)
    requires IsBoard(b)
  {
    forall j :: lo <= j < hi ==> PieceAt(b, x + Offset(dx, j), y + Offset(dy, j), '.')
  }

  /** The square k steps away is on the board and holds p or q (an occupied square). */
  ghost predicate HitAt(b: Board, x: int, y: int, dx: int, dy: int, k: int, p: char, q: char)
    requires IsBoard(b)
  {
    && IsInside(x + Offset(dx, k), y + Offset(dy, k))
    && b[x + Offset(dx, k)][y + Offset(dy, k)] != '.'
    && (b[x + Offset(dx, k)][y + Offset(dy, k)] == p || b[x + Offset(dx, k)][y + Offset(dy, k)] == q)
  }

  /** Looking from (x, y) along (dx, dy), starting k0 steps out, the first occupied square holds p or q. */
  ghost predicate SeesFrom(b: Board, x: int, y: int, dx: int, dy: int, k0: int, p: char, q: char)
    requires IsBoard(b)
  {
    exists k :: k >= k0 && HitAt(b, x, y, dx, dy, k, p, q) && ClearBetween(b, x, y, dx, dy, k0, k)
  }

  predicate IsOrthogonal(dx: int, dy: int)
  {
    Abs(dx) + Abs(dy) == 1
  }

  predicate IsDiagonal(dx: int, dy: int)
  {
    Abs(dx) == 1 && Abs(dy) == 1
  }

  /** Some row or column through (x, y) reaches p or q with nothing in between. */
  ghost predicate AttackedOrthogonally(b: Board, x: int, y: int, p: char, q: char)
    requires IsBoard(b)
  {
    exists dx, dy :: IsOrthogonal(dx, dy) && SeesFrom(b, x, y, dx, dy, 1, p, q)
  }

  /** Some diagonal through (x, y) reaches p or q with nothing in between. */
  ghost predicate AttackedDiagonally(b: Board, x: int, y: int, p: char, q: char)
    requires IsBoard(b)
  {
    exists dx, dy :: IsDiagonal(dx, dy) && SeesFrom(b, x, y, dx, dy, 1, p, q)
  }

  predicate IsKnightJump(dx: int, dy: int)
  {
    (Abs(dx) == 1 && Abs(dy) == 2) || (Abs(dx) == 2 && Abs(dy) == 1)
  }

  /** Some square a knight's jump away from (x, y) holds the knight; what lies in between is irrelevant. */
  ghost predicate AttackedByKnight(b: Board, x: int, y: int, knight: char)
    requires IsBoard(b)
  {
    exists nx, ny :: PieceAt(b, nx, ny, knight) && IsKnightJump(nx - x, ny - y)
  }

  // ---------------------------------------------------------------------------
  // The detector agrees with the reference definitions
  // ---------------------------------------------------------------------------

  /** The square k0 steps out is off the board: the ray sees nothing. */
  lemma SeesFromOutside(b: Board, x: int, y: int, dx: int, dy: int, k0: int, p: char, q: char)
    requires IsBoard(b) && !IsInside(x + Offset(dx, k0), y + Offset(dy, k0))
    ensures !SeesFrom(b, x, y, dx, dy, k0, p, q)
  {
    forall k | k > k0
      ensures !ClearBetween(b, x, y, dx, dy, k0, k)
    {
      assert ClearBetween(b, x, y, dx, dy, k0, k) ==> IsInside(x + Offset(dx, k0), y + Offset(dy, k0));
    }
  }

  /** The square k0 steps out is occupied: it alone decides. */
  lemma SeesFromBlocked(b: Board, x: int, y: int, dx: int, dy: int, k0: int, p: char, q: char)
    requires IsBoard(b) && IsInside(x + Offset(dx, k0), y + Offset(dy, k0))
    requires b[x + Offset(dx, k0)][y + Offset(dy, k0)] != '.'
    ensures SeesFrom(b, x, y, dx, dy, k0, p, q) <==>
            (b[x + Offset(dx, k0)][y + Offset(dy, k0)] == p || b[x + Offset(dx, k0)][y + Offset(dy, k0)] == q)
  {
    assert ClearBetween(b, x, y, dx, dy, k0, k0);
    assert !PieceAt(b, x + Offset(dx, k0), y + Offset(dy, k0), '.');
  }

  /** The square k0 steps out is empty: the ray looks on from k0 + 1. */
  lemma SeesFromEmpty(b: Board, x: int, y: int, dx: int, dy: int, k0: int, p: char, q: char)
    requires IsBoard(b) && IsInside(x + Offset(dx, k0), y + Offset(dy, k0))
    requires b[x + Offset(dx, k0)][y + Offset(dy, k0)] == '.'
    ensures SeesFrom(b, x, y, dx, dy, k0, p, q) <==> SeesFrom(b, x, y, dx, dy, k0 + 1, p, q)
  {
    if SeesFrom(b, x, y, dx, dy, k0 + 1, p, q) {
      var k :| k >= k0 + 1 && HitAt(b, x, y, dx, dy, k, p, q) && ClearBetween(b, x, y, dx, dy, k0 + 1, k);
      assert ClearBetween(b, x, y, dx, dy, k0, k);
    }
    if SeesFrom(b, x, y, dx, dy, k0, p, q) {
      var k :| k >= k0 && HitAt(b, x, y, dx, dy, k, p, q) && ClearBetween(b, x, y, dx, dy, k0, k);
      assert k != k0;
      assert ClearBetween(b, x, y, dx, dy, k0 + 1, k);
    }
  }

  /** The ray walk started k0 steps out reports a hit exactly when SeesFrom holds. */
  lemma {:induction false} RayHitsFrom(b: Board, x: int, y: int, dx: int, dy: int, k0: int, p: char, q: char)
    requires IsBoard(b) && IsUnitStep(dx, dy)
    ensures RayHits(b, x + Offset(dx, k0), y + Offset(dy, k0), dx, dy, p, q) <==> SeesFrom(b, x, y, dx, dy, k0, p, q)
    decreases StepsLeft(x + Offset(dx, k0), y + Offset(dy, k0), dx, dy)
  {
    var nx, ny := x + Offset(dx, k0), y + Offset(dy, k0);
    if !IsInside(nx, ny) {
      assert !RayHits(b, nx, ny, dx, dy, p, q);
      SeesFromOutside(b, x, y, dx, dy, k0, p, q);
    } else if b[nx][ny] != '.' {
      assert RayHits(b, nx, ny, dx, dy, p, q) <==> b[nx][ny] == p || b[nx][ny] == q;
      SeesFromBlocked(b, x, y, dx, dy, k0, p, q);
    } else {
      assert RayHits(b, nx, ny, dx, dy, p, q) == RayHits(b, nx + dx, ny + dy, dx, dy, p, q);
      assert nx + dx == x + Offset(dx, k0 + 1) && ny + dy == y + Offset(dy, k0 + 1);
      SeesFromEmpty(b, x, y, dx, dy, k0, p, q);
      RayHitsFrom(b, x, y, dx, dy, k0 + 1, p, q);
    }
  }

  /** One direction: the walk from the neighbouring square is SeesFrom at distance 1. */
  lemma RayHitsSees(b: Board, x: int, y: int, dx: int, dy: int, p: char, q: char)
    requires IsBoard(b) && IsUnitStep(dx, dy)
    ensures RayHits(b, x + dx, y + dy, dx, dy, p, q) <==> SeesFrom(b, x, y, dx, dy, 1, p, q)
  {
    assert Offset(dx, 1) == dx && Offset(dy, 1) == dy;
    RayHitsFrom(b, x, y, dx, dy, 1, p, q);
  }

  /** The table loop from entry k on finds a hit exactly when some later direction of the table does. */
  lemma {:induction false} AnyRayHitsSpec(b: Board, x: int, y: int, dirs: seq<(int, int)>, k: int, p: char, q: char)
    requires IsBoard(b) && AllUnitSteps(dirs) && 0 <= k <= |dirs|
    ensures AnyRayHits(b, x, y, dirs, k, p, q) <==>
            exists i :: k <= i < |dirs| && RayHits(b, x + dirs[i].0, y + dirs[i].1, dirs[i].0, dirs[i].1, p, q)
    decreases |dirs| - k
  {
    if k < |dirs| {
      AnyRayHitsSpec(b, x, y, dirs, k + 1, p, q);
    }
  }

  /** A table of directions read as a set of unit steps. */
  lemma TableSees(b: Board, x: int, y: int, dirs: seq<(int, int)>, p: char, q: char)
    requires IsBoard(b) && AllUnitSteps(dirs)
    ensures AnyRayHits(b, x, y, dirs, 0, p, q) <==>
            exists i :: 0 <= i < |dirs| && SeesFrom(b, x, y, dirs[i].0, dirs[i].1, 1, p, q)
  {
    AnyRayHitsSpec(b, x, y, dirs, 0, p, q);
    forall i | 0 <= i < |dirs|
      ensures RayHits(b, x + dirs[i].0, y + dirs[i].1, dirs[i].0, dirs[i].1, p, q)
              <==> SeesFrom(b, x, y, dirs[i].0, dirs[i].1, 1, p, q)
    {
      RayHitsSees(b, x, y, dirs[i].0, dirs[i].1, p, q);
    }
  }

  /**
   * check_rook_queen reports an attack exactly when, along one of the four
   * axis directions, the first occupied square holds the enemy rook or queen;
   * any piece of either colour in between blocks the ray.
   */
  lemma RookQueenSpec(b: Board, x: int, y: int, p: char, q: char)
    requires IsBoard(b)
    ensures CheckRookQueen(b, x, y, p, q) <==> AttackedOrthogonally(b, x, y, p, q)
  {
    var d := RookDirections;
    assert AllUnitSteps(d);
    TableSees(b, x, y, d, p, q);
    if AttackedOrthogonally(b, x, y, p, q) {
      var dx, dy :| IsOrthogonal(dx, dy) && SeesFrom(b, x, y, dx, dy, 1, p, q);
      RookTable(dx, dy);
      var i :| 0 <= i < |d| && d[i] == (dx, dy);
    }
    if CheckRookQueen(b, x, y, p, q) {
      var i :| 0 <= i < |d| && SeesFrom(b, x, y, d[i].0, d[i].1, 1, p, q);
      RookTable(d[i].0, d[i].1);
    }
  }

  /** The table of check_rook_queen lists exactly the four orthogonal unit steps. */
  lemma RookTable(dx: int, dy: int)
    ensures IsOrthogonal(dx, dy) <==> (dx, dy) in RookDirections
  {
  }

  /** check_bishop_queen: the same rule over the four diagonal directions. */
  lemma BishopQueenSpec(b: Board, x: int, y: int, p: char, q: char)
    requires IsBoard(b)
    ensures CheckBishopQueen(b, x, y, p, q) <==> AttackedDiagonally(b, x, y, p, q)
  {
    var d := BishopDirections;
    assert AllUnitSteps(d);
    TableSees(b, x, y, d, p, q);
    if AttackedDiagonally(b, x, y, p, q) {
      var dx, dy :| IsDiagonal(dx, dy) && SeesFrom(b, x, y, dx, dy, 1, p, q);
      BishopTable(dx, dy);
      var i :| 0 <= i < |d| && d[i] == (dx, dy);
    }
    if CheckBishopQueen(b, x, y, p, q) {
      var i :| 0 <= i < |d| && SeesFrom(b, x, y, d[i].0, d[i].1, 1, p, q);
      BishopTable(d[i].0, d[i].1);
    }
  }

  /** The table of check_bishop_queen lists exactly the four diagonal unit steps. */
  lemma BishopTable(dx: int, dy: int)
    ensures IsDiagonal(dx, dy) <==> (dx, dy) in BishopDirections
  {
  }

  /** The jump loop from entry k on finds the knight exactly when one of the later jumps lands on it. */
  lemma {:induction false} KnightFromSpec(b: Board, x: int, y: int, moves: seq<(int, int)>, k: int, knight: char)
    requires IsBoard(b) && 0 <= k <= |moves|
    ensures KnightFrom(b, x, y, moves, k, knight) <==>
            exists i :: k <= i < |moves| && PieceAt(b, x + moves[i].0, y + moves[i].1, knight)
    decreases |moves| - k
  {
    if k < |moves| {
      KnightFromSpec(b, x, y, moves, k + 1, knight);
    }
  }

  /** check_knight reports an attack exactly when a square a knight's jump away holds the enemy knight. */
  lemma KnightSpec(b: Board, x: int, y: int, knight: char)
    requires IsBoard(b)
    ensures CheckKnight(b, x, y, knight) <==> AttackedByKnight(b, x, y, knight)
  {
    var m := KnightMoves;
    KnightFromSpec(b, x, y, m, 0, knight);
    if AttackedByKnight(b, x, y, knight) {
      var nx, ny :| PieceAt(b, nx, ny, knight) && IsKnightJump(nx - x, ny - y);
      KnightTable(nx - x, ny - y);
      var i :| 0 <= i < |m| && m[i] == (nx - x, ny - y);
      assert PieceAt(b, x + m[i].0, y + m[i].1, knight);
    }
    if CheckKnight(b, x, y, knight) {
      var i :| 0 <= i < |m| && PieceAt(b, x + m[i].0, y + m[i].1, knight);
      KnightTable(m[i].0, m[i].1);
      assert (x + m[i].0) - x == m[i].0 && (y + m[i].1) - y == m[i].1;
    }
  }

  /** The table of check_knight lists exactly the eight knight's jumps. */
  lemma KnightTable(dx: int, dy: int)
    ensures IsKnightJump(dx, dy) <==> (dx, dy) in KnightMoves
  {
  }

  /** The pieces that can give check to the king of the given colour. */
  function Attackers(whiteKing: bool): string
  {
    if whiteKing then "rqbnp" else "RQBNP"
  }

  /**
   * is_king_in_check agrees with the reference definitions: the king of the
   * given colour is in check exactly when an enemy rook or queen sees it along
   * a row or column, an enemy bishop or queen along a diagonal, an enemy knight
   * is a jump away, or an enemy pawn stands diagonally on the side it attacks from.
   */
  lemma KingInCheckSpec(b: Board, x: int, y: int, white: bool)
    requires IsBoard(b)
    ensures white ==> (IsKingInCheck(b, x, y, white) <==>
      || AttackedOrthogonally(b, x, y, 'r', 'q') || AttackedDiagonally(b, x, y, 'b', 'q')
      || AttackedByKnight(b, x, y, 'n')
      || PawnBeside(b, x - 1, y, 'p'))
    ensures !white ==> (IsKingInCheck(b, x, y, white) <==>
      || AttackedOrthogonally(b, x, y, 'R', 'Q') || AttackedDiagonally(b, x, y, 'B', 'Q')
      || AttackedByKnight(b, x, y, 'N')
      || PawnBeside(b, x + 1, y, 'P'))
  {
    if white {
      RookQueenSpec(b, x, y, 'r', 'q');
      BishopQueenSpec(b, x, y, 'b', 'q');
      KnightSpec(b, x, y, 'n');
    } else {
      RookQueenSpec(b, x, y, 'R', 'Q');
      BishopQueenSpec(b, x, y, 'B', 'Q');
      KnightSpec(b, x, y, 'N');
    }
  }

  /**
   * Only enemy rooks, queens, bishops, knights and pawns give check: on a
   * board where none of them stands, the king is not in check, whatever
   * friendly pieces or the enemy king occupy.
   */
  lemma OnlyEnemyPiecesGiveCheck(b: Board, x: int, y: int, white: bool)
    requires IsBoard(b)
    requires forall i, j :: IsInside(i, j) ==> b[i][j] !in Attackers(white)
    ensures !IsKingInCheck(b, x, y, white)
  {
    KingInCheckSpec(b, x, y, white);
  }

  // ---------------------------------------------------------------------------
  // Reading a board: the king scan and the sentinel
  // ---------------------------------------------------------------------------

  /** Square (i, j) comes after square (x, y) in row-major order. */
  predicate After(i: int, j: int, x: int, y: int)
  {
    i > x || (i == x && j > y)
  }

  ghost predicate HasPiece(b: Board, piece: char)
    requires IsBoard(b)
  {
    exists i, j :: PieceAt(b, i, j, piece)
  }

  /** (x, y) holds the last occurrence of piece in row-major order. */
  ghost predicate IsLastOf(b: Board, piece: char, x: int, y: int)
    requires IsBoard(b)
  {
    PieceAt(b, x, y, piece) && forall i, j :: PieceAt(b, i, j, piece) ==> !After(i, j, x, y)
  }

  /** Some square of the board is not '.'; an all-'.' board is the end-of-input sentinel. */
  ghost predicate IsOccupied(b: Board)
    requires IsBoard(b)
  {
    exists i, j :: IsInside(i, j) && b[i][j] != '.'
  }

  /** The last occurrence of piece among squares with row-major index 0 .. p, if any. */
  function LastUpTo(b: Board, piece: char, p: int): Option<(int, int)>
    requires IsBoard(b) && -1 <= p < BoardSize * BoardSize
    decreases p + 1
  {
    if p < 0 then None
    else if b[p / BoardSize][p % BoardSize] == piece then Some((p / BoardSize, p % BoardSize))
    else LastUpTo(b, piece, p - 1)
  }

  /** LastUpTo finds nothing exactly when piece is absent from squares 0 .. p, and otherwise the latest of them. */
  lemma {:induction false} LastUpToSpec(b: Board, piece: char, p: int)
    requires IsBoard(b) && -1 <= p < BoardSize * BoardSize
    ensures var r := LastUpTo(b, piece, p);
      && (r.None? ==> forall i, j :: PieceAt(b, i, j, piece) ==> i * BoardSize + j > p)
      && (r.Some? ==> PieceAt(b, r.value.0, r.value.1, piece) && r.value.0 * BoardSize + r.value.1 <= p)
      && (r.Some? ==> forall i, j :: PieceAt(b, i, j, piece) && i * BoardSize + j <= p ==> !After(i, j, r.value.0, r.value.1))
    decreases p + 1
  {
    if p >= 0 && b[p / BoardSize][p % BoardSize] != piece {
      LastUpToSpec(b, piece, p - 1);
    }
  }

  /** Where the king scan of read_board leaves the coordinates of piece: its last occurrence. */
  function FindLast(b: Board, piece: char): (r: Option<(int, int)>)
    requires IsBoard(b)
    ensures r.None? <==> !HasPiece(b, piece)
    ensures r.Some? ==> IsLastOf(b, piece, r.value.0, r.value.1)
  {
    LastUpToSpec(b, piece, BoardSize * BoardSize - 1);
    LastUpTo(b, piece, BoardSize * BoardSize - 1)
  }

  /** The last occurrence of a piece is unique, so any square satisfying IsLastOf is the one FindLast gives. */
  lemma LastIsUnique(b: Board, piece: char, x: int, y: int)
    requires IsBoard(b) && IsLastOf(b, piece, x, y)
    ensures FindLast(b, piece) == Some((x, y))
  {
  }

  /** No square before row-major index p is occupied. */
  ghost predicate EmptyBefore(b: Board, p: int)
    requires IsBoard(b)
  {
    forall a, c :: IsInside(a, c) && a * BoardSize + c < p ==> b[a][c] == '.'
  }

  /** Distinct squares have distinct row-major indices. */
  lemma IndexUnique(a: int, c: int, i: int, j: int)
    requires IsInside(a, c) && IsInside(i, j) && a * BoardSize + c == i * BoardSize + j
    ensures a == i && c == j
  {
  }

  /** One more square scanned: the emptiness flag. */
  lemma EmptyStep(b: Board, i: int, j: int)
    requires IsBoard(b) && IsInside(i, j)
    ensures EmptyBefore(b, i * 8 + j + 1) <==> EmptyBefore(b, i * 8 + j) && b[i][j] == '.'
  {
    forall a, c | IsInside(a, c) && a * BoardSize + c == i * BoardSize + j
      ensures a == i && c == j
    {
      IndexUnique(a, c, i, j);
    }
  }

  /** The local state of the scan of read_board: the emptiness flag and the coordinates of both kings. */
  datatype ScanState = ScanState(isEmpty: bool, wx: int, wy: int, bkx: int, bky: int)

  /** What the scan does at square (i, j) holding piece. */
  function ScanSquareState(st: ScanState, piece: char, i: int, j: int): ScanState
  {
    if piece == '.' then st
    else if piece == 'K' then st.(isEmpty := false, wx := i, wy := j)
    else if piece == 'k' then st.(isEmpty := false, bkx := i, bky := j)
    else st.(isEmpty := false)
  }

  /** The scan state once the squares before (i, j) in row-major order are visited, starting from init. */
  function ScanUpTo(rows: Board, i: int, j: int, init: ScanState): ScanState
    requires IsBoard(rows) && 0 <= i <= BoardSize && 0 <= j <= BoardSize && (i == BoardSize ==> j == 0)
    decreases i, j
  {
    if j == 0 then
      if i == 0 then init else ScanUpTo(rows, i - 1, BoardSize, init)
    else ScanSquareState(ScanUpTo(rows, i, j - 1, init), rows[i][j - 1], i, j - 1)
  }

  /** Where the scan leaves the coordinates of piece after the squares before index p: its last occurrence there, or (x0, y0). */
  function LastBefore(b: Board, piece: char, p: int, x0: int, y0: int): (int, int)
    requires IsBoard(b) && 0 <= p <= BoardSize * BoardSize
  {
    match LastUpTo(b, piece, p - 1)
    case None => (x0, y0)
    case Some(sq) => sq
  }

  /** The reference description of the scan state after the squares before index p, started from init. */
  ghost function Expected(rows: Board, p: int, init: ScanState): ScanState
    requires IsBoard(rows) && 0 <= p <= BoardSize * BoardSize
  {
    var (wx, wy) := LastBefore(rows, 'K', p, init.wx, init.wy);
    var (bkx, bky) := LastBefore(rows, 'k', p, init.bkx, init.bky);
    ScanState(EmptyBefore(rows, p), wx, wy, bkx, bky)
  }

  /** The loop body of the scan meets the reference description one square further. */
  lemma ExpectedStep(rows: Board, i: int, j: int, init: ScanState)
    requires IsBoard(rows) && IsInside(i, j)
    ensures Expected(rows, i * 8 + j + 1, init) == ScanSquareState(Expected(rows, i * 8 + j, init), rows[i][j], i, j)
  {
    var p := i * 8 + j;
    assert p / 8 == i && p % 8 == j;
    EmptyStep(rows, i, j);
  }

  /** The scan state before square (i, j) is the reference one. */
  lemma {:induction false} ScanUpToExpected(rows: Board, i: int, j: int, init: ScanState)
    requires IsBoard(rows) && 0 <= i <= BoardSize && 0 <= j <= BoardSize && (i == BoardSize ==> j == 0)
    requires init.isEmpty
    ensures ScanUpTo(rows, i, j, init) == Expected(rows, i * 8 + j, init)
    decreases i, j
  {
    if j == 0 {
      if i > 0 {
        ScanUpToExpected(rows, i - 1, BoardSize, init);
      }
    } else {
      ScanUpToExpected(rows, i, j - 1, init);
      ExpectedStep(rows, i, j - 1, init);
    }
  }

  /**
   * Where the king scan of read_board leaves the coordinates of piece that
   * start at (x0, y0): on its last occurrence, or unmoved when the board has
   * none.
   */
  function ScanKing(b: Board, piece: char, x0: int, y0: int): (r: (int, int))
    requires IsBoard(b)
    ensures HasPiece(b, piece) ==> IsLastOf(b, piece, r.0, r.1)
    ensures !HasPiece(b, piece) ==> r == (x0, y0)
  {
    match FindLast(b, piece)
    case None => (x0, y0)
    case Some(sq) => sq
  }

  /** The whole board scanned: the flag tells whether the board is empty, and each king is where ScanKing puts it. */
  lemma ScanFinished(rows: Board, init: ScanState)
    requires IsBoard(rows)
    ensures Expected(rows, BoardSize * BoardSize, init)
         == ScanState(!IsOccupied(rows), ScanKing(rows, 'K', init.wx, init.wy).0, ScanKing(rows, 'K', init.wx, init.wy).1,
                      ScanKing(rows, 'k', init.bkx, init.bky).0, ScanKing(rows, 'k', init.bkx, init.bky).1)
  {
    assert LastUpTo(rows, 'K', 63) == FindLast(rows, 'K');
    assert LastUpTo(rows, 'k', 63) == FindLast(rows, 'k');
  }

  /** The record read_board fills in: the squares and the coordinates of both kings. */
  class ChessBoard {
    var board: Board
    var blackKingX: int
    var blackKingY: int
    var whiteKingX: int
    var whiteKingY: int

    /** A record whose squares and king coordinates are not yet meaningful. */
    constructor ()
      ensures board == []
    {
      board := [];
    }

    /**
     * read_board: store the eight rows, scan them in row-major order and
     * record the coordinates of every 'K' and 'k' met, so the last one wins;
     * a colour without a king keeps the coordinates of the previous board.
     * Returns false at the end of input (None) or on the all-'.' sentinel.
     */
    method ReadBoard(next: Option<Board>) returns (occupied: bool)
      requires next.Some? ==> IsBoard(next.value)
      modifies this
      ensures next.None? ==> !occupied && unchanged(this)
      ensures next.Some? ==> board == next.value && occupied == IsOccupied(next.value)
      ensures next.Some? ==> (whiteKingX, whiteKingY) == ScanKing(next.value, 'K', old(whiteKingX), old(whiteKingY))
      ensures next.Some? ==> (blackKingX, blackKingY) == ScanKing(next.value, 'k', old(blackKingX), old(blackKingY))
    {
      if next.None? {
        return false;
      }
      var rows := next.value;
      var wx, wy, bkx, bky;
      occupied, wx, wy, bkx, bky := ScanSquares(rows, whiteKingX, whiteKingY, blackKingX, blackKingY);
      board := rows;
      whiteKingX, whiteKingY, blackKingX, blackKingY := wx, wy, bkx, bky;
    }
  }

  /**
   * The scan of read_board: visit the squares in row-major order, note
   * whether any is not '.', and move the coordinates of each king to every
   * square where its letter is met, starting from (wx0, wy0) and (bx0, by0).
   */
  method ScanSquares(rows: Board, wx0: int, wy0: int, bx0: int, by0: int)
    returns (occupied: bool, wx: int, wy: int, bkx: int, bky: int)
    requires IsBoard(rows)
    ensures occupied == IsOccupied(rows)
    ensures (wx, wy) == ScanKing(rows, 'K', wx0, wy0)
    ensures (bkx, bky) == ScanKing(rows, 'k', bx0, by0)
  {
    var isEmpty := true;
    wx, wy, bkx, bky := wx0, wy0, bx0, by0;
    ghost var init := ScanState(true, wx0, wy0, bx0, by0);
    for i := 0 to BoardSize
      invariant ScanState(isEmpty, wx, wy, bkx, bky) == ScanUpTo(rows, i, 0, init)
    {
      for j := 0 to BoardSize
        invariant ScanState(isEmpty, wx, wy, bkx, bky) == ScanUpTo(rows, i, j, init)
      {
        var piece := rows[i][j];
        if piece != '.' {
          isEmpty := false;
          if piece == 'K' {
            wx, wy := i, j;
          } else if piece == 'k' {
            bkx, bky := i, j;
          }
        }
      }
    }
    ScanUpToExpected(rows, BoardSize, 0, init);
    ScanFinished(rows, init);
    occupied := !isEmpty;
  }

  // ---------------------------------------------------------------------------
  // The game loop of main
  // ---------------------------------------------------------------------------

  datatype Verdict = WhiteInCheck | BlackInCheck | NoneInCheck

  /** One output line: "Game #<game>: <verdict>." */
  datatype Report = Report(game: nat, verdict: Verdict)

  /** The verdict choice of main: white has priority over black. */
  function Judge(whiteCheck: bool, blackCheck: bool): Verdict
  {
    if whiteCheck then WhiteInCheck else if blackCheck then BlackInCheck else NoneInCheck
  }

  /** The verdict for a board whose kings stand where the king scan finds them. */
  function GameVerdict(b: Board): Verdict
    requires IsBoard(b) && HasPiece(b, 'K') && HasPiece(b, 'k')
  {
    var (wx, wy) := FindLast(b, 'K').value;
    var (bkx, bky) := FindLast(b, 'k').value;
    Judge(IsKingInCheck(b, wx, wy, true), IsKingInCheck(b, bkx, bky, false))
  }

  /** Judging the kings where the scan leaves them gives the board's verdict. */
  lemma VerdictOfKings(b: Board, wx: int, wy: int, bkx: int, bky: int)
    requires IsBoard(b) && HasPiece(b, 'K') && HasPiece(b, 'k')
    requires (wx, wy) == FindLast(b, 'K').value && (bkx, bky) == FindLast(b, 'k').value
    ensures GameVerdict(b) == Judge(IsKingInCheck(b, wx, wy, true), IsKingInCheck(b, bkx, bky, false))
  {
  }

  /** The reports of the first n games of the input, in order. */
  ghost predicate ReportsOf(reports: seq<Report>, input: seq<Board>, n: int)
    requires forall i :: 0 <= i < |input| ==> IsBoard(input[i])
    requires 0 <= n <= |input| && forall i :: 0 <= i < n ==> HasPiece(input[i], 'K') && HasPiece(input[i], 'k')
  {
    |reports| == n && forall i :: 0 <= i < n ==> reports[i] == Report(i + 1, GameVerdict(input[i]))
  }

  /** Reporting game n + 1 extends the reports of the first n games. */
  lemma ReportNext(reports: seq<Report>, input: seq<Board>, n: int, verdict: Verdict)
    requires forall i :: 0 <= i < |input| ==> IsBoard(input[i])
    requires 0 <= n < |input| && forall i :: 0 <= i <= n ==> HasPiece(input[i], 'K') && HasPiece(input[i], 'k')
    requires ReportsOf(reports, input, n) && verdict == GameVerdict(input[n])
    ensures ReportsOf(reports + [Report(n + 1, verdict)], input, n + 1)
  {
    var extended := reports + [Report(n + 1, verdict)];
    forall i | 0 <= i <= n
      ensures extended[i] == Report(i + 1, GameVerdict(input[i]))
    {
      if i < n {
        assert extended[i] == reports[i];
      }
    }
  }

  /** How many boards of the input are evaluated: those before the first sentinel. */
  ghost function GamesPlayed(input: seq<Board>): (n: nat)
    requires forall i :: 0 <= i < |input| ==> IsBoard(input[i])
    ensures n <= |input|
    ensures forall i :: 0 <= i < n ==> IsOccupied(input[i])
    ensures n < |input| ==> !IsOccupied(input[n])
  {
    if input == [] || !IsOccupied(input[0]) then 0 else 1 + GamesPlayed(input[1..])
  }

  /**
   * main: read boards until the end of input or the sentinel, and for each
   * evaluated board report its 1-based game number and verdict.
   */
  method PlayGames(input: seq<Board>) returns (reports: seq<Report>)
    requires forall i :: 0 <= i < |input| ==> IsBoard(input[i])
    requires forall i :: 0 <= i < GamesPlayed(input) ==> HasPiece(input[i], 'K') && HasPiece(input[i], 'k')
    ensures |reports| == GamesPlayed(input)
    ensures forall i :: 0 <= i < |reports| ==> reports[i] == Report(i + 1, GameVerdict(input[i]))
  {
    var cb := new ChessBoard();
    var gameNumber := 1;
    reports := [];
    var next := 0;
    while true
      invariant 0 <= next <= GamesPlayed(input)
      invariant gameNumber == next + 1
      invariant ReportsOf(reports, input, next)
      decreases |input| - next
    {
      var occupied := cb.ReadBoard(if next < |input| then Some(input[next]) else None);
      if !occupied {
        break;
      }
      assert next < GamesPlayed(input);
      var b := input[next];
      assert cb.board == b;
      var whiteCheck := IsKingInCheck(cb.board, cb.whiteKingX, cb.whiteKingY, true);
      var blackCheck := IsKingInCheck(cb.board, cb.blackKingX, cb.blackKingY, false);
      var verdict := Judge(whiteCheck, blackCheck);
      VerdictOfKings(b, cb.whiteKingX, cb.whiteKingY, cb.blackKingX, cb.blackKingY);
      ReportNext(reports, input, next, verdict);
      reports := reports + [Report(gameNumber, verdict)];
      gameNumber := gameNumber + 1;
      next := next + 1;
    }
  }

  /** A board holding only the two kings: no king is in check. */
  lemma LoneKingsNoCheck(b: Board)
    requires IsBoard(b) && HasPiece(b, 'K') && HasPiece(b, 'k')
    requires forall i, j :: IsInside(i, j) ==> b[i][j] == '.' || b[i][j] == 'K' || b[i][j] == 'k'
    ensures GameVerdict(b) == NoneInCheck
  {
    var (wx, wy) := FindLast(b, 'K').value;
    var (bkx, bky) := FindLast(b, 'k').value;
    OnlyEnemyPiecesGiveCheck(b, wx, wy, true);
    OnlyEnemyPiecesGiveCheck(b, bkx, bky, false);
  }
}
