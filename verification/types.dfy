/**
 The value types shared by the rules engine and the game session: colours,
 piece kinds, board positions, pieces and the 8x8 board of optional pieces.
 Row 0 is Black's back rank, row 7 is White's.
 */
module ChessTypes {

  /** A square's content or a selection: `None` is the source's `null`. */
  datatype Option<+T> = None | Some(value: T)

  datatype Color = White | Black

  datatype PieceType = King | Queen | Rook | Bishop | Knight | Pawn

  /** A square; coordinates are unbounded so that off-board requests can be modelled. */
  datatype Pos = Pos(row: int, col: int)

  /** `hasMoved` is optional in the source; an absent flag is `false` here. */
  datatype Piece = Piece(kind: PieceType, color: Color, hasMoved: bool, position: Pos)

  function Opponent(c: Color): (o: Color)
    ensures o != c
  {
    if c == White then Black else White
  }

  predicate IsGrid(g: seq<seq<Option<Piece>>>) {
    |g| == 8 && forall r :: 0 <= r < 8 ==> |g[r]| == 8
  }

  /** Eight rows of eight squares, each empty or holding a piece. */
  type Board = g: seq<seq<Option<Piece>>> | IsGrid(g)
    witness seq(8, _ => seq(8, _ => None))

  predicate InBounds(p: Pos) {
    0 <= p.row < 8 && 0 <= p.col < 8
  }

  function At(b: Board, p: Pos): Option<Piece>
    requires InBounds(p)
  {
    b[p.row][p.col]
  }

  /** A total occupancy test: squares off the board are never occupied. */
  predicate Occupied(b: Board, p: Pos) {
    InBounds(p) && At(b, p).Some?
  }

  /** The square holds a piece of colour `c`. */
  predicate HasColor(b: Board, p: Pos, c: Color) {
    Occupied(b, p) && At(b, p).value.color == c
  }

  /** The board with square `p` overwritten by `x` and every other square kept. */
  function Put(b: Board, p: Pos, x: Option<Piece>): (b': Board)
    requires InBounds(p)
    ensures At(b', p) == x
    ensures forall q :: InBounds(q) && q != p ==> At(b', q) == At(b, q)
  {
    b[p.row := b[p.row][p.col := x]]
  }

  /** Row-major index of a square: the order in which the source's nested row/column loops visit it. */
  function Index(p: Pos): int {
    p.row * 8 + p.col
  }

  /** The square visited at step `i` of a row-major scan. */
  function Sq(i: int): (p: Pos)
    requires 0 <= i < 64
    ensures InBounds(p) && Index(p) == i
  {
    Pos(i / 8, i % 8)
  }

  lemma IndexInjective(p: Pos, q: Pos)
    requires InBounds(p) && InBounds(q) && Index(p) == Index(q)
    ensures p == q
  {
  }

  lemma IndexRange(p: Pos)
    requires InBounds(p)
    ensures 0 <= Index(p) < 64 && Sq(Index(p)) == p
  {
  }
}
