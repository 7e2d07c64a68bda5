/**
 Move legality under pure piece-movement rules (`ChessEngine.isValidMove` and
 its private helpers). Legality here ignores whether the move leaves the
 mover's own king in check; that filter is layered on in the Engine module.
 */
module Moves {
  import opened ChessTypes

  function Abs(x: int): nat {
    if x < 0 then -x else x
  }

  /** `Math.sign` on integers. */
  function Sign(x: int): int {
    if x > 0 then 1 else if x < 0 then -1 else 0
  }

  /** Chebyshev distance: the number of king steps between two squares. */
  function Dist(a: Pos, b: Pos): nat {
    var dr := Abs(b.row - a.row);
    var dc := Abs(b.col - a.col);
    if dr < dc then dc else dr
  }

  /** The two squares share a rank, a file or a diagonal. */
  predicate Aligned(a: Pos, b: Pos) {
    a.row == b.row || a.col == b.col || Abs(b.row - a.row) == Abs(b.col - a.col)
  }

  /** Coordinate `a` moved `t` unit steps towards `b`. */
  function Toward(a: int, b: int, t: int): int {
    if a < b then a + t else if a > b then a - t else a
  }

  /** The square `t` unit steps from `from` along the sign vector towards `to`. */
  function Ray(from: Pos, to: Pos, t: int): Pos {
    Pos(Toward(from.row, to.row, t), Toward(from.col, to.col, t))
  }

  /** Every square strictly between `from` and `to` along their line is empty. */
  ghost predicate PathEmpty(b: Board, from: Pos, to: Pos) {
    forall t :: 0 < t < Dist(from, to) ==> !Occupied(b, Ray(from, to, t))
  }

  /** One unit step along an aligned line stays on the board and on the line. */
  lemma StepLemma(cur: Pos, to: Pos)
    requires InBounds(cur) && InBounds(to) && Aligned(cur, to)
    ensures var next := Pos(cur.row + Sign(to.row - cur.row), cur.col + Sign(to.col - cur.col));
      && (cur == to ==> next == to)
      && (cur != to ==>
            && InBounds(next) && Aligned(next, to)
            && Dist(next, to) == Dist(cur, to) - 1
            && Ray(cur, to, 0) == cur
            && (next != to ==>
                  Sign(to.row - next.row) == Sign(to.row - cur.row) && Sign(to.col - next.col) == Sign(to.col - cur.col))
            && (forall t :: 0 <= t < Dist(next, to) ==> Ray(next, to, t) == Ray(cur, to, t + 1))
            && (forall t :: 0 < t <= Dist(next, to) ==> Ray(cur, to, t) == Ray(next, to, t - 1)))
  {
  }

  /**
   The loop of `isPathClear`: starting at `cur`, step by (rowStep, colStep)
   until `to` is reached, failing on the first occupied square. The square
   `to` itself is never inspected.
   */
  function Walk(b: Board, cur: Pos, to: Pos, rowStep: int, colStep: int): (clear: bool)
    requires InBounds(to)
    requires cur != to ==> InBounds(cur) && Aligned(cur, to)
                           && rowStep == Sign(to.row - cur.row) && colStep == Sign(to.col - cur.col)
    ensures clear <==> forall t :: 0 <= t < Dist(cur, to) ==> !Occupied(b, Ray(cur, to, t))
    decreases Dist(cur, to)
  {
    if cur == to then true
    else
      StepLemma(cur, to);
      if At(b, cur).Some? then false
      else Walk(b, Pos(cur.row + rowStep, cur.col + colStep), to, rowStep, colStep)
  }

  /** `isPathClear`: the squares strictly between two aligned squares are all empty. */
  function IsPathClear(b: Board, from: Pos, to: Pos): (clear: bool)
    requires InBounds(from) && InBounds(to) && Aligned(from, to)
    ensures clear <==> PathEmpty(b, from, to)
  {
    var rowStep := Sign(to.row - from.row);
    var colStep := Sign(to.col - from.col);
    StepLemma(from, to);
    Walk(b, Pos(from.row + rowStep, from.col + colStep), to, rowStep, colStep)
  }

  /** Forward direction of a pawn: White moves towards row 0, Black towards row 7. */
  function Direction(c: Color): int {
    if c == White then -1 else 1
  }

  /** The rank from which a pawn may make its double step. */
  function StartingRow(c: Color): int {
    if c == White then 6 else 1
  }

  function IsValidPawnMove(b: Board, from: Pos, to: Pos, piece: Piece, rowDiff: int, colDiff: int): (ok: bool)
    requires InBounds(to) && rowDiff == to.row - from.row && colDiff == to.col - from.col
    ensures ok && colDiff == 0 ==> !Occupied(b, to)
    ensures ok && colDiff != 0 ==> Abs(colDiff) == 1 && Occupied(b, to)
    ensures ok ==> rowDiff == Direction(piece.color)
                   || (colDiff == 0 && from.row == StartingRow(piece.color) && rowDiff == 2 * Direction(piece.color))
  {
    var direction := if piece.color == White then -1 else 1;
    var startingRow := if piece.color == White then 6 else 1;
    var targetPiece := At(b, to);
    if colDiff == 0 && targetPiece.Some? then false
    else if colDiff == 0 && rowDiff == direction then true
    else if colDiff == 0 && from.row == startingRow && rowDiff == 2 * direction then true
    else if Abs(colDiff) == 1 && rowDiff == direction then targetPiece.Some?
    else false
  }

  function IsValidRookMove(b: Board, from: Pos, to: Pos, rowDiff: int, colDiff: int): (ok: bool)
    requires InBounds(from) && InBounds(to)
    requires rowDiff == to.row - from.row && colDiff == to.col - from.col
    ensures ok <==> (from.row == to.row || from.col == to.col) && PathEmpty(b, from, to)
  {
    if rowDiff != 0 && colDiff != 0 then false
    else IsPathClear(b, from, to)
  }

  function IsValidBishopMove(b: Board, from: Pos, to: Pos, rowDiff: int, colDiff: int,
                             absRowDiff: int, absColDiff: int): (ok: bool)
    requires InBounds(from) && InBounds(to)
    requires rowDiff == to.row - from.row && colDiff == to.col - from.col
    requires absRowDiff == Abs(rowDiff) && absColDiff == Abs(colDiff)
    ensures ok <==> Abs(to.row - from.row) == Abs(to.col - from.col) && PathEmpty(b, from, to)
  {
    if absRowDiff != absColDiff then false
    else IsPathClear(b, from, to)
  }

  function IsValidQueenMove(b: Board, from: Pos, to: Pos, rowDiff: int, colDiff: int,
                            absRowDiff: int, absColDiff: int): (ok: bool)
    requires InBounds(from) && InBounds(to)
    requires rowDiff == to.row - from.row && colDiff == to.col - from.col
    requires absRowDiff == Abs(rowDiff) && absColDiff == Abs(colDiff)
    ensures ok <==> Aligned(from, to) && PathEmpty(b, from, to)
  {
    var isRookMove := (rowDiff == 0) != (colDiff == 0);
    var isBishopMove := absRowDiff == absColDiff;
    if !isRookMove && !isBishopMove then false
    else IsPathClear(b, from, to)
  }

  /**
   `isValidMove`: may `piece`, standing on `from`, move to `to`? Off-board
   destinations and destinations holding a piece of the mover's colour are
   refused before the per-kind rule is consulted.
   */
  function IsValidMove(b: Board, from: Pos, to: Pos, piece: Piece): (ok: bool)
    requires InBounds(from)
    ensures ok ==> InBounds(to)
    ensures ok ==> !HasColor(b, to, piece.color)
  {
    if to.row < 0 || to.row > 7 || to.col < 0 || to.col > 7 then false
    else if At(b, to).Some? && At(b, to).value.color == piece.color then false
    else
      var rowDiff := to.row - from.row;
      var colDiff := to.col - from.col;
      var absRowDiff := Abs(rowDiff);
      var absColDiff := Abs(colDiff);
      match piece.kind
      case Pawn => IsValidPawnMove(b, from, to, piece, rowDiff, colDiff)
      case Rook => IsValidRookMove(b, from, to, rowDiff, colDiff)
      case Knight => (absRowDiff == 2 && absColDiff == 1) || (absRowDiff == 1 && absColDiff == 2)
      case Bishop => IsValidBishopMove(b, from, to, rowDiff, colDiff, absRowDiff, absColDiff)
      case Queen => IsValidQueenMove(b, from, to, rowDiff, colDiff, absRowDiff, absColDiff)
      case King => absRowDiff <= 1 && absColDiff <= 1
  }
}
