/**
 The engine's verdicts on the position `createInitialBoard` sets up: neither
 colour is in check there, and each has a move that keeps it out of check,
 so `isCheckmate` and `isStalemate` both answer false for either colour.
 */
module Opening {
  import opened ChessTypes
  import opened Moves
  import opened Engine
  import opened Game

  /** The square the king of `color` starts on. */
  function KingHome(color: Color): Pos {
    if color == White then Pos(7, 4) else Pos(0, 4)
  }

  /** Every piece of the opponent of `color` on `b` stands as it does on `start`. */
  ghost predicate OpponentUnmoved(b: Board, start: Board, color: Color) {
    forall p {:trigger HasColor(b, p, Opponent(color))} ::
      InBounds(p) && HasColor(b, p, Opponent(color)) ==> At(b, p) == At(start, p)
  }

  /** The only king of `color` on `b` stands on its home square. */
  ghost predicate KingAtHome(b: Board, color: Color) {
    && IsKingOf(b, KingHome(color), color)
    && forall p {:trigger IsKingOf(b, p, color)} :: InBounds(p) && IsKingOf(b, p, color) ==> p == KingHome(color)
  }

  /** No piece of the starting arrangement can reach the enemy king's home square in one move. */
  lemma NoAttackFromHome(b: Board, start: Board, color: Color, p: Pos)
    requires StartingLayout(start) && OpponentUnmoved(b, start, color) && InBounds(p)
    ensures !Attacks(b, p, KingHome(color), Opponent(color))
  {
    if HasColor(b, p, Opponent(color)) {
      var piece := At(b, p).value;
      assert At(b, p) == At(start, p);
      var k := KingHome(color);
      if color == White {
        assert p.row == 0 || p.row == 1;
      } else {
        assert p.row == 6 || p.row == 7;
      }
      if p.row == 0 || p.row == 7 {
        assert piece.kind == BackRankKinds[p.col];
      }
      assert Abs(k.row - p.row) >= 6;
    }
  }

  /** With its king at home and the enemy pieces unmoved, a colour is not in check. */
  lemma NotInCheckAtHome(b: Board, start: Board, color: Color)
    requires StartingLayout(start) && OpponentUnmoved(b, start, color) && KingAtHome(b, color)
    ensures !InCheck(b, color)
  {
    forall k, p | FirstKing(b, color, k)
      ensures !Attacks(b, p, k, Opponent(color))
    {
      assert k == KingHome(color);
      if InBounds(p) {
        NoAttackFromHome(b, start, color, p);
      }
    }
  }

  /** The king's pawn double step: e2-e4 for White, e7-e5 for Black. */
  function KingPawnOpening(color: Color): Candidate {
    var from := Pos(StartingRow(color), 4);
    Candidate(from, Pos(from.row + 2 * Direction(color), 4), Piece(Pawn, color, false, from))
  }

  /** In the starting position neither colour is in check, and each may open with its king's pawn. */
  lemma OpeningIsPlayable(color: Color)
    ensures !InCheck(InitialBoard(), color)
    ensures SafeCandidate(InitialBoard(), color, KingPawnOpening(color))
    ensures HasSafeMove(InitialBoard(), color)
  {
    var b := InitialBoard();
    var c := KingPawnOpening(color);
    assert KingAtHome(b, color) by {
      forall p | InBounds(p) && IsKingOf(b, p, color)
        ensures p == KingHome(color)
      {
        assert p.row in {0, 1, 6, 7};
      }
    }
    NotInCheckAtHome(b, b, color);
    assert At(b, c.from) == Some(c.piece);
    assert !Occupied(b, c.to);
    var nb := Simulate(b, c.from, c.to, c.piece);
    assert KingAtHome(nb, color) by {
      assert At(nb, KingHome(color)) == At(b, KingHome(color));
      forall p | InBounds(p) && IsKingOf(nb, p, color)
        ensures p == KingHome(color)
      {
        assert p != c.from && p != c.to;
      }
    }
    NotInCheckAtHome(nb, b, color);
    assert SafeCandidate(b, color, c);
  }
}
