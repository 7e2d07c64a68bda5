/**
 Properties of the check test of `ChessEngine` that go beyond a single move:
 its symmetry under swapping the colours, the place where that symmetry
 fails because only the first king is examined, and what the check filter
 means for the king's own moves.
 */
module CheckProperties {
  import opened ChessTypes
  import opened Moves
  import opened MoveProperties
  import opened Engine

  /** `color` has no king, or exactly one. */
  ghost predicate AtMostOneKing(b: Board, color: Color) {
    forall p, q :: InBounds(p) && InBounds(q) && IsKingOf(b, p, color) && IsKingOf(b, q, color) ==> p == q
  }

  lemma MirrorInvolution(p: Pos)
    ensures MirrorPos(MirrorPos(p)) == p
  {
  }

  /** A king of one colour reflects to a king of the other. */
  lemma MirrorKing(b: Board, p: Pos, color: Color)
    requires InBounds(p)
    ensures IsKingOf(Mirror(b), MirrorPos(p), Opponent(color)) == IsKingOf(b, p, color)
  {
    assert At(Mirror(b), MirrorPos(p)) == SwapSquare(At(b, p));
  }

  /** A piece of one colour attacks a square exactly when its reflection, in the other colour, attacks the reflected square. */
  lemma MirrorAttack(b: Board, p: Pos, k: Pos, color: Color)
    requires InBounds(p)
    ensures Attacks(Mirror(b), MirrorPos(p), MirrorPos(k), Opponent(color)) == Attacks(b, p, k, color)
  {
    assert At(Mirror(b), MirrorPos(p)) == SwapSquare(At(b, p));
    if Occupied(b, p) {
      MirrorMove(b, p, k, At(b, p).value);
    }
  }

  /** With at most one king, the first king of a colour reflects to the first king of the other colour. */
  lemma MirrorFirstKing(b: Board, color: Color, k: Pos)
    requires AtMostOneKing(b, color)
    ensures FirstKing(Mirror(b), Opponent(color), MirrorPos(k)) == FirstKing(b, color, k)
  {
    var mb := Mirror(b);
    if FirstKing(b, color, k) {
      MirrorKing(b, k, color);
      forall q | InBounds(q) && Index(q) < Index(MirrorPos(k))
        ensures !IsKingOf(mb, q, Opponent(color))
      {
        MirrorInvolution(q);
        MirrorKing(b, MirrorPos(q), color);
      }
    }
    if InBounds(MirrorPos(k)) && FirstKing(mb, Opponent(color), MirrorPos(k)) {
      MirrorInvolution(k);
      MirrorKing(b, k, color);
      assert IsKingOf(b, k, color);
    }
  }

  /**
   Check is colour-symmetric: reflecting the board and swapping the colours
   puts the other colour in check exactly when the first one was, provided the
   colour has at most one king.
   */
  lemma MirrorCheck(b: Board, color: Color)
    requires AtMostOneKing(b, color)
    ensures InCheck(Mirror(b), Opponent(color)) == InCheck(b, color)
  {
    var mb := Mirror(b);
    if InCheck(b, color) {
      var k, p :| FirstKing(b, color, k) && Attacks(b, p, k, Opponent(color));
      MirrorFirstKing(b, color, k);
      MirrorAttack(b, p, k, Opponent(color));
      assert Opponent(Opponent(color)) == color;
      assert FirstKing(mb, Opponent(color), MirrorPos(k));
      assert Attacks(mb, MirrorPos(p), MirrorPos(k), Opponent(Opponent(color)));
    }
    if InCheck(mb, Opponent(color)) {
      var mk, mp :| FirstKing(mb, Opponent(color), mk) && Attacks(mb, mp, mk, Opponent(Opponent(color)));
      var k, p := MirrorPos(mk), MirrorPos(mp);
      MirrorInvolution(mk);
      MirrorInvolution(mp);
      MirrorFirstKing(b, color, k);
      MirrorAttack(b, p, k, Opponent(color));
      assert FirstKing(b, color, k);
      assert Attacks(b, p, k, Opponent(color));
    }
  }

  /** Two white kings on a7 and a8 in the board's own coordinates, (6, 0) and (7, 0), and a black rook on (6, 7). */
  function TwoKingsSquare(p: Pos): Option<Piece> {
    if p == Pos(6, 0) then Some(Piece(King, White, false, p))
    else if p == Pos(7, 0) then Some(Piece(King, White, false, p))
    else if p == Pos(6, 7) then Some(Piece(Rook, Black, false, p))
    else None
  }

  function TwoKingsBoard(): (b: Board)
    ensures forall p :: InBounds(p) ==> At(b, p) == TwoKingsSquare(p)
  {
    var g := seq(8, r requires 0 <= r < 8 => seq(8, c requires 0 <= c < 8 => TwoKingsSquare(Pos(r, c))));
    assert IsGrid(g);
    g
  }

  /** On the two-kings board White is in check: the rook reaches the first king along row 6. */
  lemma TwoKingsWhiteInCheck(b: Board)
    requires forall p :: InBounds(p) ==> At(b, p) == TwoKingsSquare(p)
    ensures InCheck(b, White)
  {
    var k, r := Pos(6, 0), Pos(6, 7);
    forall p | InBounds(p) && Index(p) < Index(k)
      ensures !IsKingOf(b, p, White)
    {
      assert At(b, p) == TwoKingsSquare(p);
    }
    assert At(b, k) == TwoKingsSquare(k);
    assert FirstKing(b, White, k);
    forall t | 0 < t < Dist(r, k)
      ensures !Occupied(b, Ray(r, k, t))
    {
      assert Ray(r, k, t) == Pos(6, 7 - t);
      assert At(b, Pos(6, 7 - t)) == TwoKingsSquare(Pos(6, 7 - t));
    }
    assert PathEmpty(b, r, k);
    assert At(b, r) == TwoKingsSquare(r);
    assert IsValidMove(b, r, k, At(b, r).value);
    assert Attacks(b, r, k, Opponent(White));
  }

  /** The reflected two-kings board: black kings on (1, 0) and (0, 0), a white rook on (1, 7). */
  function TwoKingsMirrorSquare(p: Pos): Option<Piece> {
    if p == Pos(1, 0) then Some(Piece(King, Black, false, p))
    else if p == Pos(0, 0) then Some(Piece(King, Black, false, p))
    else if p == Pos(1, 7) then Some(Piece(Rook, White, false, p))
    else None
  }

  /** What a square of the reflected board holds: the colour-swapped content of its reflection. */
  lemma MirrorAt(b: Board, q: Pos)
    requires InBounds(q)
    ensures At(Mirror(b), q) == SwapSquare(At(b, MirrorPos(q)))
  {
    MirrorInvolution(q);
    assert At(Mirror(b), MirrorPos(MirrorPos(q))) == SwapSquare(At(b, MirrorPos(q)));
  }

  lemma TwoKingsSwap(q: Pos)
    ensures SwapSquare(TwoKingsSquare(MirrorPos(q))) == TwoKingsMirrorSquare(q)
  {
  }

  lemma TwoKingsMirror(b: Board)
    requires forall p :: InBounds(p) ==> At(b, p) == TwoKingsSquare(p)
    ensures forall q :: InBounds(q) ==> At(Mirror(b), q) == TwoKingsMirrorSquare(q)
  {
    forall q | InBounds(q)
      ensures At(Mirror(b), q) == TwoKingsMirrorSquare(q)
    {
      MirrorAt(b, q);
      assert At(b, MirrorPos(q)) == TwoKingsSquare(MirrorPos(q));
      TwoKingsSwap(q);
    }
  }

  /** No king of the colour comes before its first king. */
  lemma FirstKingIsEarliest(b: Board, color: Color, k: Pos, h: Pos)
    requires FirstKing(b, color, k) && InBounds(h) && IsKingOf(b, h, color)
    ensures Index(k) <= Index(h)
  {
  }

  /** A king on the first square of the scan is the first king. */
  lemma KingOnFirstSquare(b: Board, color: Color, h: Pos)
    requires InBounds(h) && Index(h) == 0 && IsKingOf(b, h, color)
    ensures forall k {:trigger FirstKing(b, color, k)} :: FirstKing(b, color, k) ==> k == h
  {
    forall k | FirstKing(b, color, k)
      ensures k == h
    {
      FirstKingIsEarliest(b, color, k, h);
      IndexInjective(k, h);
    }
  }

  /** On the reflected board Black's first king in row-major order is the one on (0, 0). */
  lemma TwoKingsMirrorFirstKing(mb: Board)
    requires forall q :: InBounds(q) ==> At(mb, q) == TwoKingsMirrorSquare(q)
    ensures forall k {:trigger FirstKing(mb, Black, k)} :: FirstKing(mb, Black, k) ==> k == Pos(0, 0)
  {
    var home := Pos(0, 0);
    assert At(mb, home) == TwoKingsMirrorSquare(home);
    assert IsKingOf(mb, home, Black);
    KingOnFirstSquare(mb, Black, home);
  }

  /** The only white piece of the reflected board, the rook on (1, 7), does not reach (0, 0). */
  lemma TwoKingsMirrorNoAttacker(mb: Board)
    requires forall q :: InBounds(q) ==> At(mb, q) == TwoKingsMirrorSquare(q)
    ensures forall p {:trigger Attacks(mb, p, Pos(0, 0), Opponent(Black))} :: !Attacks(mb, p, Pos(0, 0), Opponent(Black))
  {
    var home, rook := Pos(0, 0), Pos(1, 7);
    assert At(mb, rook) == TwoKingsMirrorSquare(rook);
    assert !IsValidMove(mb, rook, home, At(mb, rook).value);
    forall p
      ensures !Attacks(mb, p, home, Opponent(Black))
    {
      if InBounds(p) && p != rook {
        assert At(mb, p) == TwoKingsMirrorSquare(p);
        assert !HasColor(mb, p, White);
      }
    }
  }

  /**
   On the reflected board Black's first king is the one on (0, 0), which the
   white rook on (1, 7) does not reach, so Black is not in check.
   */
  lemma TwoKingsMirrorNotInCheck(mb: Board)
    requires forall q :: InBounds(q) ==> At(mb, q) == TwoKingsMirrorSquare(q)
    ensures !InCheck(mb, Black)
  {
    TwoKingsMirrorFirstKing(mb);
    TwoKingsMirrorNoAttacker(mb);
  }

  /**
   The symmetry needs the single-king condition: with two white kings, White
   can be in check while the reflected position does not put Black in check,
   because only the first king in row-major order is examined.
   */
  lemma FirstKingBreaksSymmetry()
    ensures !AtMostOneKing(TwoKingsBoard(), White)
    ensures InCheck(TwoKingsBoard(), White) && !InCheck(Mirror(TwoKingsBoard()), Black)
  {
    var b := TwoKingsBoard();
    assert IsKingOf(b, Pos(6, 0), White) && IsKingOf(b, Pos(7, 0), White);
    TwoKingsWhiteInCheck(b);
    TwoKingsMirror(b);
    TwoKingsMirrorNotInCheck(Mirror(b));
  }

  /**
   `isValidMove` lets a king step next to the enemy king, but the check filter
   never does: with a single king, every check-safe king move ends more than
   one king step away from each enemy king, unless it takes that king.
   */
  lemma SafeKingKeepsDistance(b: Board, color: Color, c: Candidate, e: Pos)
    requires SafeCandidate(b, color, c) && c.piece.kind == King && AtMostOneKing(b, color)
    requires InBounds(e) && IsKingOf(b, e, Opponent(color))
    ensures c.to == e || Dist(c.to, e) > 1
  {
    var nb := Simulate(b, c.from, c.to, c.piece);
    if c.to != e && Dist(c.to, e) <= 1 {
      assert c.from != c.to;
      assert At(nb, e) == At(b, e);
      forall p | InBounds(p) && Index(p) < Index(c.to)
        ensures !IsKingOf(nb, p, color)
      {
        if p != c.from && p != c.to && IsKingOf(nb, p, color) {
          assert IsKingOf(b, p, color) && IsKingOf(b, c.from, color);
        }
      }
      assert FirstKing(nb, color, c.to);
      KingRule(nb, e, c.to, At(nb, e).value);
      assert Attacks(nb, e, c.to, Opponent(color));
    }
  }
}
