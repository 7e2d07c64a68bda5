/**
 Candidate enumeration, check detection and the terminal-state predicates of
 `ChessEngine`. The source's nested `row`/`col` loops are written as one loop
 over the row-major square index `i = 8 * row + col`, which visits the squares
 in the same order. Each operation is proved against a declarative ghost
 description of what it computes.
 */
module Engine {
  import opened ChessTypes
  import opened Moves

  /** Positions on the board, listed in strictly increasing row-major order (so without repeats). */
  predicate RowMajor(ps: seq<Pos>) {
    && (forall k :: 0 <= k < |ps| ==> InBounds(ps[k]))
    && (forall k, l :: 0 <= k < l < |ps| ==> Index(ps[k]) < Index(ps[l]))
  }

  /** `ps` lists, in row-major order, exactly the squares before index `i` that `ok` accepts. */
  ghost predicate ScannedTo(ok: Pos -> bool, ps: seq<Pos>, i: int) {
    && RowMajor(ps)
    && (forall k :: 0 <= k < |ps| ==> Index(ps[k]) < i)
    && (forall p {:trigger p in ps} :: p in ps <==> InBounds(p) && Index(p) < i && ok(p))
  }

  /** One step of a row-major scan: square `i` is appended when accepted. */
  lemma ScanStep(ok: Pos -> bool, ps: seq<Pos>, i: int)
    requires 0 <= i < 64 && ScannedTo(ok, ps, i)
    ensures ScannedTo(ok, if ok(Sq(i)) then ps + [Sq(i)] else ps, i + 1)
  {
    forall p | InBounds(p) && Index(p) == i
      ensures p == Sq(i)
    {
      IndexInjective(p, Sq(i));
    }
  }

  /**
   `getAllValidMoves`: every board square the piece may move to under the
   movement rules, in row-major order. Check is not considered.
   */
  method GetAllValidMoves(b: Board, piece: Piece, from: Pos) returns (validMoves: seq<Pos>)
    requires InBounds(from)
    ensures RowMajor(validMoves)
    ensures forall p {:trigger p in validMoves} :: p in validMoves <==> InBounds(p) && IsValidMove(b, from, p, piece)
  {
    ghost var ok := p => InBounds(p) && IsValidMove(b, from, p, piece);
    validMoves := [];
    var i := 0;
    while i < 64
      invariant 0 <= i <= 64
      invariant ScannedTo(ok, validMoves, i)
    {
      var to := Sq(i);
      ScanStep(ok, validMoves, i);
      if IsValidMove(b, from, to, piece) {
        validMoves := validMoves + [to];
      }
      i := i + 1;
    }
    forall p | InBounds(p)
      ensures Index(p) < 64
    {
      IndexRange(p);
    }
  }

  predicate IsKingOf(b: Board, p: Pos, color: Color) {
    HasColor(b, p, color) && At(b, p).value.kind == King
  }

  /** `k` holds the first king of `color` in row-major order. */
  ghost predicate FirstKing(b: Board, color: Color, k: Pos) {
    && InBounds(k)
    && IsKingOf(b, k, color)
    && forall p {:trigger IsKingOf(b, p, color)} :: InBounds(p) && Index(p) < Index(k) ==> !IsKingOf(b, p, color)
  }

  /** The piece on `from` has colour `color` and may move onto `target`. */
  predicate Attacks(b: Board, from: Pos, target: Pos, color: Color) {
    HasColor(b, from, color) && IsValidMove(b, from, target, At(b, from).value)
  }

  /**
   When `color` counts as being in check: it has a king, and some enemy piece
   may move onto the first such king in row-major order. A colour without a
   king is never in check.
   */
  ghost predicate InCheck(b: Board, color: Color) {
    exists k {:trigger FirstKing(b, color, k)} ::
      && FirstKing(b, color, k)
      && exists p {:trigger Attacks(b, p, k, Opponent(color))} :: Attacks(b, p, k, Opponent(color))
  }

  lemma FirstKingUnique(b: Board, color: Color, k: Pos, k': Pos)
    requires FirstKing(b, color, k) && FirstKing(b, color, k')
    ensures k == k'
  {
    assert !(Index(k) < Index(k')) && !(Index(k') < Index(k));
    IndexInjective(k, k');
  }

  /** The first loop of `isInCheck`: the first king of `color` in row-major order, if any. */
  method FindKing(b: Board, color: Color) returns (kingPosition: Option<Pos>)
    ensures kingPosition.Some? ==> FirstKing(b, color, kingPosition.value)
    ensures kingPosition.None? ==> forall p {:trigger IsKingOf(b, p, color)} :: InBounds(p) ==> !IsKingOf(b, p, color)
  {
    var i := 0;
    while i < 64
      invariant 0 <= i <= 64
      invariant forall p {:trigger IsKingOf(b, p, color)} :: InBounds(p) && Index(p) < i ==> !IsKingOf(b, p, color)
    {
      if IsKingOf(b, Sq(i), color) {
        return Some(Sq(i));
      }
      i := i + 1;
    }
    forall p | InBounds(p)
      ensures !IsKingOf(b, p, color)
    {
      IndexRange(p);
    }
    return None;
  }

  /** No square before index `i` satisfies `hit`. */
  ghost predicate NoneBefore(hit: Pos -> bool, i: int) {
    forall p {:trigger hit(p)} :: InBounds(p) && Index(p) < i ==> !hit(p)
  }

  lemma NoneStep(hit: Pos -> bool, i: int)
    requires 0 <= i < 64 && NoneBefore(hit, i) && !hit(Sq(i))
    ensures NoneBefore(hit, i + 1)
  {
    forall p | InBounds(p) && Index(p) == i
      ensures p == Sq(i)
    {
      IndexInjective(p, Sq(i));
    }
  }

  lemma NoneAtAll(hit: Pos -> bool)
    requires NoneBefore(hit, 64)
    ensures forall p {:trigger hit(p)} :: InBounds(p) ==> !hit(p)
  {
    forall p | InBounds(p)
      ensures !hit(p)
    {
      IndexRange(p);
    }
  }

  /** The second loop of `isInCheck`: can some piece of `enemyColor` move onto `king`? */
  method FindAttacker(b: Board, king: Pos, enemyColor: Color) returns (attacked: bool)
    ensures attacked <==> exists p {:trigger Attacks(b, p, king, enemyColor)} :: Attacks(b, p, king, enemyColor)
  {
    ghost var hit := p => Attacks(b, p, king, enemyColor);
    var i := 0;
    while i < 64
      invariant 0 <= i <= 64
      invariant NoneBefore(hit, i)
    {
      var from := Sq(i);
      var piece := At(b, from);
      if piece.Some? && piece.value.color == enemyColor && IsValidMove(b, from, king, piece.value) {
        assert hit(from);
        return true;
      }
      NoneStep(hit, i);
      i := i + 1;
    }
    NoneAtAll(hit);
    forall p
      ensures !Attacks(b, p, king, enemyColor)
    {
      if InBounds(p) {
        assert !hit(p);
      }
    }
    return false;
  }

  /** `isInCheck`: find the first king of `color`, then look for an enemy piece that may move onto it. */
  method IsInCheck(b: Board, color: Color) returns (inCheck: bool)
    ensures inCheck <==> InCheck(b, color)
    ensures (forall p :: InBounds(p) ==> !IsKingOf(b, p, color)) ==> !inCheck
  {
    var kingPosition := FindKing(b, color);
    if kingPosition.None? {
      return false;
    }
    var king := kingPosition.value;
    forall k | FirstKing(b, color, k)
      ensures k == king
    {
      FirstKingUnique(b, color, k, king);
    }
    inCheck := FindAttacker(b, king, Opponent(color));
  }

  /**
   The board copy used to try a move: the destination is overwritten with the
   moving piece (whose recorded position is left as it was), then the source
   square is cleared.
   */
  function Simulate(b: Board, from: Pos, to: Pos, piece: Piece): (nb: Board)
    requires InBounds(from) && InBounds(to)
    ensures !Occupied(nb, from)
    ensures from != to ==> At(nb, to) == Some(piece)
    ensures forall q :: InBounds(q) && q != from && q != to ==> At(nb, q) == At(b, q)
  {
    Put(Put(b, to, Some(piece)), from, None)
  }

  /** A move as collected by the engine: source, destination and the moving piece. */
  datatype Candidate = Candidate(from: Pos, to: Pos, piece: Piece)

  /**
   A move of `color` the engine accepts: the piece stands on the source square,
   the movement rules allow it, and the simulated board leaves `color` out of check.
   */
  ghost predicate SafeCandidate(b: Board, color: Color, c: Candidate) {
    && InBounds(c.from)
    && At(b, c.from) == Some(c.piece)
    && c.piece.color == color
    && IsValidMove(b, c.from, c.to, c.piece)
    && !InCheck(Simulate(b, c.from, c.to, c.piece), color)
  }

  ghost predicate HasSafeMove(b: Board, color: Color) {
    exists c {:trigger SafeCandidate(b, color, c)} :: SafeCandidate(b, color, c)
  }

  /** Row-major on the source square, then row-major on the destination. */
  predicate Precedes(c: Candidate, d: Candidate) {
    Index(c.from) < Index(d.from) || (Index(c.from) == Index(d.from) && Index(c.to) < Index(d.to))
  }

  predicate EnumerationOrder(ms: seq<Candidate>) {
    forall k, l :: 0 <= k < l < |ms| ==> Precedes(ms[k], ms[l])
  }

  /**
   The search shared by `isCheckmate` and `isStalemate`: try every candidate
   move of every piece of `color` on a copy of the board, and stop at the
   first one after which `color` is not in check.
   */
  method HasLegalMove(b: Board, color: Color) returns (found: bool)
    ensures found <==> HasSafeMove(b, color)
  {
    var i := 0;
    while i < 64
      invariant 0 <= i <= 64
      invariant forall c {:trigger SafeCandidate(b, color, c)} :: SafeCandidate(b, color, c) ==> Index(c.from) >= i
    {
      var from := Sq(i);
      match At(b, from) {
        case Some(piece) =>
          if piece.color == color {
            var validMoves := GetAllValidMoves(b, piece, from);
            var j := 0;
            while j < |validMoves|
              invariant 0 <= j <= |validMoves|
              invariant forall c {:trigger SafeCandidate(b, color, c)} ::
                          SafeCandidate(b, color, c) ==> Index(c.from) > i || (c.from == from && c.to !in validMoves[..j])
            {
              var to := validMoves[j];
              assert to in validMoves;
              var newBoard := Simulate(b, from, to, piece);
              var stillInCheck := IsInCheck(newBoard, color);
              if !stillInCheck {
                assert SafeCandidate(b, color, Candidate(from, to, piece));
                return true;
              }
              assert validMoves[..j + 1] == validMoves[..j] + [to];
              j := j + 1;
            }
            assert validMoves[..j] == validMoves;
          }
        case None =>
      }
      i := i + 1;
    }
    return false;
  }

  /** `isCheckmate`: in check, and no move of that colour gets out of check. */
  method IsCheckmate(b: Board, color: Color) returns (mate: bool)
    ensures mate <==> InCheck(b, color) && !HasSafeMove(b, color)
  {
    var inCheck := IsInCheck(b, color);
    if !inCheck {
      return false;
    }
    var escape := HasLegalMove(b, color);
    return !escape;
  }

  /** `isStalemate`: not in check, and no move of that colour avoids check. */
  method IsStalemate(b: Board, color: Color) returns (stalemate: bool)
    ensures stalemate <==> !InCheck(b, color) && !HasSafeMove(b, color)
  {
    var inCheck := IsInCheck(b, color);
    if inCheck {
      return false;
    }
    var escape := HasLegalMove(b, color);
    return !escape;
  }
}
