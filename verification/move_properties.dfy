/**
 Properties of the movement rules, each stated against a description that does
 not follow the shape of the code: squares strictly between two endpoints,
 squared distances for the knight, king steps, and colour-swapped mirror boards.
 */
module MoveProperties {
  import opened ChessTypes
  import opened Moves

  /**
   `p` lies strictly inside the segment from `from` to `to`: it is neither
   endpoint, it is inside the rectangle spanned by them, and going through it
   costs no extra king steps.
   */
  ghost predicate StrictlyBetween(from: Pos, to: Pos, p: Pos) {
    && p != from && p != to
    && Abs(p.row - from.row) + Abs(to.row - p.row) == Abs(to.row - from.row)
    && Abs(p.col - from.col) + Abs(to.col - p.col) == Abs(to.col - from.col)
    && Dist(from, p) + Dist(p, to) == Dist(from, to)
  }

  lemma RayIsBetween(from: Pos, to: Pos, t: int)
    requires Aligned(from, to) && 0 < t < Dist(from, to)
    ensures StrictlyBetween(from, to, Ray(from, to, t))
  {
  }

  lemma BetweenIsOnRay(from: Pos, to: Pos, p: Pos)
    requires Aligned(from, to) && StrictlyBetween(from, to, p)
    ensures 0 < Dist(from, p) < Dist(from, to) && p == Ray(from, to, Dist(from, p))
  {
  }

  /** `isPathClear` holds exactly when no square strictly between the endpoints is occupied. */
  lemma {:induction false} PathClearIffBetweenEmpty(b: Board, from: Pos, to: Pos)
    requires InBounds(from) && InBounds(to) && Aligned(from, to)
    ensures IsPathClear(b, from, to) <==> forall p :: StrictlyBetween(from, to, p) ==> !Occupied(b, p)
  {
    if IsPathClear(b, from, to) {
      forall p | StrictlyBetween(from, to, p)
        ensures !Occupied(b, p)
      {
        BetweenIsOnRay(from, to, p);
      }
    } else {
      var t :| 0 < t < Dist(from, to) && Occupied(b, Ray(from, to, t));
      RayIsBetween(from, to, t);
    }
  }

  /** The square a move leaves is never inspected by the path test, nor is the one it reaches. */
  lemma PathIgnoresEndpoints(b: Board, from: Pos, to: Pos, x: Option<Piece>, y: Option<Piece>)
    requires InBounds(from) && InBounds(to) && Aligned(from, to)
    ensures IsPathClear(Put(Put(b, from, x), to, y), from, to) == IsPathClear(b, from, to)
  {
    PathClearIffBetweenEmpty(b, from, to);
    PathClearIffBetweenEmpty(Put(Put(b, from, x), to, y), from, to);
  }

  /** A piece can never "move" onto its own square. */
  lemma NullMoveIllegal(b: Board, from: Pos, piece: Piece)
    requires InBounds(from) && HasColor(b, from, piece.color)
    ensures !IsValidMove(b, from, from, piece)
  {
  }

  /**
   The pawn rule as coded: straight ahead one square, or two from the starting
   rank, onto an empty square; one square diagonally forward onto an enemy.
   */
  lemma PawnRule(b: Board, from: Pos, to: Pos, piece: Piece)
    requires InBounds(from) && piece.kind == Pawn
    ensures IsValidMove(b, from, to, piece) <==>
      && InBounds(to)
      && (|| (&& to.col == from.col
              && !Occupied(b, to)
              && (|| to.row - from.row == Direction(piece.color)
                  || (from.row == StartingRow(piece.color) && to.row - from.row == 2 * Direction(piece.color))))
          || (&& Abs(to.col - from.col) == 1
              && to.row - from.row == Direction(piece.color)
              && HasColor(b, to, Opponent(piece.color))))
  {
  }

  /** A pawn only ever moves towards the opponent's side. */
  lemma PawnMovesForward(b: Board, from: Pos, to: Pos, piece: Piece)
    requires InBounds(from) && piece.kind == Pawn && IsValidMove(b, from, to, piece)
    ensures piece.color == White ==> to.row < from.row
    ensures piece.color == Black ==> to.row > from.row
  {
  }

  /**
   The double step only looks at its destination: whatever stands on the
   square jumped over, the move is legal from the starting rank.
   */
  lemma PawnDoubleStepSkipsMiddle(b: Board, from: Pos, piece: Piece, middle: Option<Piece>)
    requires InBounds(from) && piece.kind == Pawn && from.row == StartingRow(piece.color)
    requires !Occupied(b, Pos(from.row + 2 * Direction(piece.color), from.col))
    ensures IsValidMove(Put(b, Pos(from.row + Direction(piece.color), from.col), middle),
                        from, Pos(from.row + 2 * Direction(piece.color), from.col), piece)
  {
  }

  lemma SquareOfAbs(x: int)
    ensures x * x == Abs(x) * Abs(x) >= 0
  {
  }

  lemma LargeSquare(a: nat)
    requires a >= 3
    ensures a * a >= 9
  {
    assert a * a >= 3 * a;
  }

  lemma KnightSquares(dr: int, dc: int)
    ensures (Abs(dr) == 2 && Abs(dc) == 1) || (Abs(dr) == 1 && Abs(dc) == 2) <==> dr * dr + dc * dc == 5
  {
    SquareOfAbs(dr);
    SquareOfAbs(dc);
    var a, c := Abs(dr), Abs(dc);
    if a >= 3 {
      LargeSquare(a);
    } else if c >= 3 {
      LargeSquare(c);
    } else {
      assert a in {0, 1, 2} && c in {0, 1, 2};
    }
  }

  /** A knight reaches exactly the squares at squared distance 5, whatever is in between. */
  lemma KnightRule(b: Board, from: Pos, to: Pos, piece: Piece)
    requires InBounds(from) && piece.kind == Knight
    ensures IsValidMove(b, from, to, piece) <==>
      && InBounds(to)
      && !HasColor(b, to, piece.color)
      && (to.row - from.row) * (to.row - from.row) + (to.col - from.col) * (to.col - from.col) == 5
  {
    KnightSquares(to.row - from.row, to.col - from.col);
  }

  /** A king reaches exactly the squares within one king step; check is not consulted. */
  lemma KingRule(b: Board, from: Pos, to: Pos, piece: Piece)
    requires InBounds(from) && piece.kind == King
    ensures IsValidMove(b, from, to, piece) <==>
      InBounds(to) && !HasColor(b, to, piece.color) && Dist(from, to) <= 1
  {
  }

  /** The line a sliding piece may travel along. */
  predicate SlideLine(kind: PieceType, from: Pos, to: Pos) {
    match kind
    case Rook => from.row == to.row || from.col == to.col
    case Bishop => Abs(to.row - from.row) == Abs(to.col - from.col)
    case Queen => Aligned(from, to)
    case _ => false
  }

  /** Rooks, bishops and queens move along their lines through empty squares only. */
  lemma SlidingRule(b: Board, from: Pos, to: Pos, piece: Piece)
    requires InBounds(from) && (piece.kind == Rook || piece.kind == Bishop || piece.kind == Queen)
    ensures IsValidMove(b, from, to, piece) <==>
      && InBounds(to)
      && !HasColor(b, to, piece.color)
      && SlideLine(piece.kind, from, to)
      && forall p :: StrictlyBetween(from, to, p) ==> !Occupied(b, p)
  {
    if InBounds(to) && SlideLine(piece.kind, from, to) {
      PathClearIffBetweenEmpty(b, from, to);
    }
  }

  /** A queen moves exactly as a rook or a bishop of its colour would. */
  lemma QueenIsRookOrBishop(b: Board, from: Pos, to: Pos, piece: Piece)
    requires InBounds(from) && piece.kind == Queen
    ensures IsValidMove(b, from, to, piece) <==>
      IsValidMove(b, from, to, piece.(kind := Rook)) || IsValidMove(b, from, to, piece.(kind := Bishop))
  {
  }

  /** Reflection of a square across the board's horizontal midline. */
  function MirrorPos(p: Pos): Pos {
    Pos(7 - p.row, p.col)
  }

  /** The same piece in the other colour, standing on the reflected square. */
  function SwapPiece(pc: Piece): Piece {
    pc.(color := Opponent(pc.color), position := MirrorPos(pc.position))
  }

  function SwapSquare(x: Option<Piece>): Option<Piece> {
    match x
    case None => None
    case Some(pc) => Some(SwapPiece(pc))
  }

  /** The board seen from the other side: rows reflected and every colour swapped. */
  function Mirror(b: Board): (m: Board)
    ensures forall p :: InBounds(p) ==> InBounds(MirrorPos(p)) && At(m, MirrorPos(p)) == SwapSquare(At(b, p))
  {
    var g := seq(8, r requires 0 <= r < 8 => seq(8, c requires 0 <= c < 8 => SwapSquare(b[7 - r][c])));
    assert IsGrid(g);
    g
  }

  /** Reflection commutes with stepping along a line. */
  lemma MirrorRay(from: Pos, to: Pos, t: int)
    ensures Ray(MirrorPos(from), MirrorPos(to), t) == MirrorPos(Ray(from, to, t))
  {
  }

  lemma MirrorPath(b: Board, from: Pos, to: Pos)
    requires InBounds(from) && InBounds(to) && Aligned(from, to)
    ensures Aligned(MirrorPos(from), MirrorPos(to))
    ensures PathEmpty(Mirror(b), MirrorPos(from), MirrorPos(to)) <==> PathEmpty(b, from, to)
  {
    var m := Mirror(b);
    assert Dist(MirrorPos(from), MirrorPos(to)) == Dist(from, to);
    forall t | 0 < t < Dist(from, to)
      ensures Occupied(m, Ray(MirrorPos(from), MirrorPos(to), t)) == Occupied(b, Ray(from, to, t))
    {
      MirrorRay(from, to, t);
      var p := Ray(from, to, t);
      if InBounds(p) {
        assert At(m, MirrorPos(p)) == SwapSquare(At(b, p));
      }
    }
  }

  /** What the rules read at the destination is the same on the mirrored board. */
  lemma MirrorTarget(b: Board, to: Pos, piece: Piece)
    requires InBounds(to)
    ensures Occupied(Mirror(b), MirrorPos(to)) == Occupied(b, to)
    ensures HasColor(Mirror(b), MirrorPos(to), SwapPiece(piece).color) == HasColor(b, to, piece.color)
    ensures HasColor(Mirror(b), MirrorPos(to), Opponent(SwapPiece(piece).color)) == HasColor(b, to, Opponent(piece.color))
  {
    assert At(Mirror(b), MirrorPos(to)) == SwapSquare(At(b, to));
  }

  /**
   The rules are colour-symmetric: reflecting the board, the move and the
   piece, and swapping colours, never changes legality. In particular the
   pawn's direction and starting rank are exact mirror images.
   */
  lemma MirrorMove(b: Board, from: Pos, to: Pos, piece: Piece)
    requires InBounds(from)
    ensures IsValidMove(Mirror(b), MirrorPos(from), MirrorPos(to), SwapPiece(piece)) == IsValidMove(b, from, to, piece)
  {
    var mb, mf, mt, mp := Mirror(b), MirrorPos(from), MirrorPos(to), SwapPiece(piece);
    if InBounds(to) {
      MirrorTarget(b, to, piece);
      match piece.kind
      case Pawn =>
        PawnRule(b, from, to, piece);
        PawnRule(mb, mf, mt, mp);
      case Knight =>
        KnightRule(b, from, to, piece);
        KnightRule(mb, mf, mt, mp);
      case King =>
        KingRule(b, from, to, piece);
        KingRule(mb, mf, mt, mp);
      case _ =>
        MirrorSlide(b, from, to, piece);
    }
  }

  lemma MirrorSlide(b: Board, from: Pos, to: Pos, piece: Piece)
    requires InBounds(from) && InBounds(to) && (piece.kind == Rook || piece.kind == Bishop || piece.kind == Queen)
    ensures IsValidMove(Mirror(b), MirrorPos(from), MirrorPos(to), SwapPiece(piece)) == IsValidMove(b, from, to, piece)
  {
    MirrorTarget(b, to, piece);
    if !HasColor(b, to, piece.color) && Aligned(from, to) {
      MirrorPath(b, from, to);
      MirrorLine(b, Mirror(b), from, to, piece);
    }
  }

  /**
   Off the mover's own pieces a sliding move is its line plus an empty path,
   so two boards that agree on the path verdict agree on the reflected move.
   */
  lemma MirrorLine(b: Board, mb: Board, from: Pos, to: Pos, piece: Piece)
    requires InBounds(from) && InBounds(to) && (piece.kind == Rook || piece.kind == Bishop || piece.kind == Queen)
    requires !HasColor(b, to, piece.color) && Aligned(from, to)
    requires !HasColor(mb, MirrorPos(to), SwapPiece(piece).color)
    requires PathEmpty(mb, MirrorPos(from), MirrorPos(to)) == PathEmpty(b, from, to)
    ensures IsValidMove(mb, MirrorPos(from), MirrorPos(to), SwapPiece(piece)) == IsValidMove(b, from, to, piece)
  {
    var mf, mt := MirrorPos(from), MirrorPos(to);
    assert Abs(mt.row - mf.row) == Abs(to.row - from.row) && mt.col - mf.col == to.col - from.col;
  }
}
