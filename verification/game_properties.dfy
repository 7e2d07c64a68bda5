/**
 Invariants of the game session: every reachable state keeps each piece's
 recorded position in step with its square, never gains or loses a piece
 (a piece leaving the board is filed as captured under its own colour), and
 only ever selects a piece of the player to move. Also: turn alternation,
 the behaviour of reset and start, and the settings merge.
 */
module GameProperties {
  import opened ChessTypes
  import opened Game

  /** 1 when the square holds a piece of `color`, else 0. */
  function Occ(x: Option<Piece>, color: Color): nat {
    if x.Some? && x.value.color == color then 1 else 0
  }

  /** The number of pieces of `color` on one rank. */
  function CountRow(row: seq<Option<Piece>>, color: Color): nat
    decreases |row|
  {
    if row == [] then 0 else Occ(row[0], color) + CountRow(row[1..], color)
  }

  function CountRows(rows: seq<seq<Option<Piece>>>, color: Color): nat
    decreases |rows|
  {
    if rows == [] then 0 else CountRow(rows[0], color) + CountRows(rows[1..], color)
  }

  /** The number of pieces of `color` on the board. */
  function PieceCount(b: Board, color: Color): nat {
    CountRows(b, color)
  }

  lemma {:induction false} CountRowUpdate(row: seq<Option<Piece>>, i: int, x: Option<Piece>, color: Color)
    requires 0 <= i < |row|
    ensures CountRow(row[i := x], color) + Occ(row[i], color) == CountRow(row, color) + Occ(x, color)
    decreases |row|
  {
    if i > 0 {
      assert row[i := x][1..] == row[1..][i - 1 := x];
      CountRowUpdate(row[1..], i - 1, x, color);
    } else {
      assert row[i := x][1..] == row[1..];
    }
  }

  lemma {:induction false} CountRowsUpdate(rows: seq<seq<Option<Piece>>>, i: int, row: seq<Option<Piece>>, color: Color)
    requires 0 <= i < |rows|
    ensures CountRows(rows[i := row], color) + CountRow(rows[i], color) == CountRows(rows, color) + CountRow(row, color)
    decreases |rows|
  {
    if i > 0 {
      assert rows[i := row][1..] == rows[1..][i - 1 := row];
      CountRowsUpdate(rows[1..], i - 1, row, color);
    } else {
      assert rows[i := row][1..] == rows[1..];
    }
  }

  /** Overwriting one square changes the count by what was removed and what was put there. */
  lemma PieceCountPut(b: Board, p: Pos, x: Option<Piece>, color: Color)
    requires InBounds(p)
    ensures PieceCount(Put(b, p, x), color) + Occ(At(b, p), color) == PieceCount(b, color) + Occ(x, color)
  {
    CountRowUpdate(b[p.row], p.col, x, color);
    CountRowsUpdate(b, p.row, b[p.row][p.col := x], color);
  }

  /** A rank whose squares all hold pieces of one colour counts all of them for that colour and none for the other. */
  lemma {:induction false} CountFullRow(row: seq<Option<Piece>>, owner: Color, color: Color)
    requires forall k :: 0 <= k < |row| ==> row[k].Some? && row[k].value.color == owner
    ensures CountRow(row, color) == if color == owner then |row| else 0
    decreases |row|
  {
    if row != [] {
      CountFullRow(row[1..], owner, color);
    }
  }

  lemma {:induction false} CountEmptyRow(row: seq<Option<Piece>>, color: Color)
    requires forall k :: 0 <= k < |row| ==> row[k].None?
    ensures CountRow(row, color) == 0
    decreases |row|
  {
    if row != [] {
      CountEmptyRow(row[1..], color);
    }
  }

  lemma CountRowsFrom(rows: seq<seq<Option<Piece>>>, color: Color, k: int)
    requires 0 <= k < |rows|
    ensures CountRows(rows[k..], color) == CountRow(rows[k], color) + CountRows(rows[k + 1..], color)
  {
    assert rows[k..][1..] == rows[k + 1..];
  }

  lemma LayoutRow(b: Board, r: int, owner: Color, color: Color)
    requires StartingLayout(b) && r in {0, 1, 6, 7} && owner == (if r < 2 then Black else White)
    ensures CountRow(b[r], color) == if color == owner then 8 else 0
  {
    forall k | 0 <= k < 8
      ensures b[r][k].Some? && b[r][k].value.color == owner
    {
      assert At(b, Pos(r, k)) == b[r][k];
    }
    CountFullRow(b[r], owner, color);
  }

  lemma LayoutEmptyRow(b: Board, r: int, color: Color)
    requires StartingLayout(b) && 2 <= r < 6
    ensures CountRow(b[r], color) == 0
  {
    forall k | 0 <= k < 8
      ensures b[r][k].None?
    {
      assert At(b, Pos(r, k)) == b[r][k];
    }
    CountEmptyRow(b[r], color);
  }

  /** The starting arrangement has sixteen pieces of each colour. */
  lemma LayoutCounts(b: Board, color: Color)
    requires StartingLayout(b)
    ensures PieceCount(b, color) == 16
  {
    LayoutRow(b, 0, Black, color);
    LayoutRow(b, 1, Black, color);
    LayoutEmptyRow(b, 2, color);
    LayoutEmptyRow(b, 3, color);
    LayoutEmptyRow(b, 4, color);
    LayoutEmptyRow(b, 5, color);
    LayoutRow(b, 6, White, color);
    LayoutRow(b, 7, White, color);
    for k := 0 to 8
      invariant CountRows(b, color) == CountRows(b[k..], color) + (if color == Black then 8 * Min(k, 2) else 8 * Max(k - 6, 0))
    {
      CountRowsFrom(b, color, k);
    }
    assert b[8..] == [];
  }

  function Min(x: int, y: int): int {
    if x < y then x else y
  }

  function Max(x: int, y: int): int {
    if x < y then y else x
  }

  /** Every piece on the board records the square it stands on. */
  ghost predicate PositionsAgree(b: Board) {
    forall p :: InBounds(p) && At(b, p).Some? ==> At(b, p).value.position == p
  }

  /** Each capture list holds pieces of its own colour only. */
  predicate CapturedColours(cp: CapturedPieces) {
    && (forall k :: 0 <= k < |cp.white| ==> cp.white[k].color == White)
    && (forall k :: 0 <= k < |cp.black| ==> cp.black[k].color == Black)
  }

  /** Sixteen pieces of each colour, on the board or in that colour's capture list. */
  predicate Conserved(st: GameState) {
    && PieceCount(st.board, White) + |st.captured.white| == 16
    && PieceCount(st.board, Black) + |st.captured.black| == 16
  }

  /** A selected square always holds a piece of the player to move. */
  predicate SelectionValid(st: GameState) {
    st.selectedSquare.Some? ==> HasColor(st.board, st.selectedSquare.value, st.currentPlayer)
  }

  ghost predicate WellFormed(st: GameState) {
    PositionsAgree(st.board) && CapturedColours(st.captured) && Conserved(st) && SelectionValid(st)
  }

  /** The starting arrangement records every piece's square correctly. */
  lemma LayoutPositions(b: Board)
    requires StartingLayout(b)
    ensures PositionsAgree(b)
  {
    forall p | InBounds(p) && At(b, p).Some?
      ensures At(b, p).value.position == p
    {
      assert p.row in {0, 1, 6, 7};
    }
  }

  lemma InitialCounts()
    ensures PieceCount(InitialBoard(), White) == 16 && PieceCount(InitialBoard(), Black) == 16
  {
    var b := InitialBoard();
    LayoutCounts(b, White);
    LayoutCounts(b, Black);
  }

  lemma InitialWellFormed()
    ensures WellFormed(InitialState())
  {
    var b := InitialBoard();
    LayoutCounts(b, White);
    LayoutCounts(b, Black);
    LayoutPositions(b);
  }

  lemma {:induction false} MovePreservesWellFormed(st: GameState, from: Pos, to: Pos)
    requires 0 <= from.row < 8 && InBounds(to)
    requires WellFormed(st)
    ensures WellFormed(MovePieceState(st, from, to))
  {
    var st' := MovePieceState(st, from, to);
    if Occupied(st.board, from) {
      var piece := At(st.board, from).value;
      var moved := MovedPiece(st.board, from, to);
      var mid := Put(st.board, to, Some(moved));
      assert st'.board == Put(mid, from, None);
      var captured := if from == to then Some(moved) else At(st.board, to);
      forall color: Color
        ensures PieceCount(st'.board, color) + Occ(captured, color) == PieceCount(st.board, color)
      {
        PieceCountPut(st.board, to, Some(moved), color);
        PieceCountPut(mid, from, None, color);
      }
    }
  }

  lemma ReducePreservesWellFormed(st: GameState, a: Action)
    requires Dispatchable(a) && WellFormed(st)
    ensures WellFormed(Reduce(st, a))
  {
    match a
    case StartGame(_, _) => InitialWellFormed();
    case ResetGame => InitialWellFormed();
    case MovePiece(from, to) => MovePreservesWellFormed(st, from, to);
    case _ =>
  }

  /** Every state reachable from the initial state by dispatching actions is well formed. */
  lemma {:induction false} RunPreservesWellFormed(st: GameState, actions: seq<Action>)
    requires AllDispatchable(actions) && WellFormed(st)
    ensures WellFormed(Run(st, actions))
    decreases |actions|
  {
    if actions != [] {
      ReducePreservesWellFormed(st, actions[0]);
      RunPreservesWellFormed(Reduce(st, actions[0]), actions[1..]);
    }
  }

  lemma ReachableWellFormed(actions: seq<Action>)
    requires AllDispatchable(actions)
    ensures WellFormed(Run(InitialState(), actions))
  {
    InitialWellFormed();
    RunPreservesWellFormed(InitialState(), actions);
  }

  /**
   What the reducer as written still keeps: each capture list holds its own
   colour only and any selection is a piece of the player to move. The piece
   count is not kept, as `CapturesSurviveReset` shows.
   */
  predicate CapturesAndSelectionSound(st: GameState) {
    CapturedColours(st.captured) && SelectionValid(st)
  }

  lemma ReduceAsWrittenKeepsSound(st: GameState, a: Action)
    requires Dispatchable(a) && CapturesAndSelectionSound(st)
    ensures CapturesAndSelectionSound(ReduceAsWritten(st, a))
  {
    match a
    case MovePiece(from, to) =>
      if Occupied(st.board, from) {
        var moved := MovedPiece(st.board, from, to);
        if from != to && Occupied(st.board, to) {
          var pc := At(st.board, to).value;
          assert pc.color == White || pc.color == Black;
        }
      }
    case _ =>
  }

  /** Every state the reducer as written reaches from a sound state is sound. */
  lemma {:induction false} RunAsWrittenKeepsSound(st: GameState, actions: seq<Action>)
    requires AllDispatchable(actions) && CapturesAndSelectionSound(st)
    ensures CapturesAndSelectionSound(RunAsWritten(st, actions))
    decreases |actions|
  {
    if actions != [] {
      ReduceAsWrittenKeepsSound(st, actions[0]);
      RunAsWrittenKeepsSound(ReduceAsWritten(st, actions[0]), actions[1..]);
    }
  }

  /** The action moves a piece: a `MOVE_PIECE` whose source square is occupied. */
  predicate Moves(st: GameState, a: Action) {
    a.MovePiece? && Occupied(st.board, a.from)
  }

  /** How many of the actions move a piece when dispatched in order from `st`. */
  function MoveCount(st: GameState, actions: seq<Action>): nat
    requires AllDispatchable(actions)
    decreases |actions|
  {
    if actions == [] then 0
    else (if Moves(st, actions[0]) then 1 else 0) + MoveCount(Reduce(st, actions[0]), actions[1..])
  }

  predicate NoRestart(actions: seq<Action>) {
    forall k :: 0 <= k < |actions| ==> !actions[k].StartGame? && !actions[k].ResetGame?
  }

  /** Without a restart, the turn passes to the other colour exactly when a piece moves. */
  lemma {:induction false} TurnAlternation(st: GameState, actions: seq<Action>)
    requires AllDispatchable(actions) && NoRestart(actions)
    ensures Run(st, actions).currentPlayer
            == if MoveCount(st, actions) % 2 == 0 then st.currentPlayer else Opponent(st.currentPlayer)
    decreases |actions|
  {
    if actions != [] {
      var st1 := Reduce(st, actions[0]);
      assert NoRestart(actions[1..]) by {
        forall k | 0 <= k < |actions[1..]|
          ensures !actions[1..][k].StartGame? && !actions[1..][k].ResetGame?
        {
          assert actions[1..][k] == actions[k + 1];
        }
      }
      TurnAlternation(st1, actions[1..]);
      assert Moves(st, actions[0]) ==> st1.currentPlayer == Opponent(st.currentPlayer);
      assert !Moves(st, actions[0]) ==> st1.currentPlayer == st.currentPlayer;
    }
  }

  /**
   Both restarts forget everything but the settings (and, for a start, the
   mode): a reset is the initial state with the settings carried over, and a
   start is that in the requested mode, marked as started.
   */
  lemma RestartForgetsGame(st1: GameState, st2: GameState, mode: GameMode)
    requires st1.settings == st2.settings
    ensures Reduce(st1, ResetGame) == InitialState().(settings := st1.settings)
    ensures Reduce(st1, StartGame(mode, None)) == InitialState().(gameMode := mode, isGameStarted := true, settings := st1.settings)
    ensures Reduce(st1, ResetGame).settings == st1.settings && Reduce(st1, StartGame(mode, None)).settings == st1.settings
    ensures Reduce(st1, StartGame(mode, None)).gameMode == mode
    ensures Reduce(st1, ResetGame) == Reduce(st2, ResetGame)
    ensures Reduce(st1, StartGame(mode, None)) == Reduce(st2, StartGame(mode, Some(Black)))
    ensures Reduce(st1, ResetGame).captured == CapturedPieces([], [])
    ensures Reduce(st1, ResetGame).board == InitialBoard() && Reduce(st1, ResetGame).currentPlayer == White
    ensures Reduce(st1, StartGame(mode, None)).isGameStarted && !Reduce(st1, ResetGame).isGameStarted
  {
  }

  lemma ResetIdempotent(st: GameState)
    ensures Reduce(Reduce(st, ResetGame), ResetGame) == Reduce(st, ResetGame)
  {
  }

  /** The three setters change their own field and nothing else. */
  lemma SettersChangeOneField(st: GameState, moves: seq<Pos>, status: GameStatus, patch: SettingsPatch)
    ensures Reduce(st, SetValidMoves(moves)).validMoves == moves
    ensures Reduce(st, SetValidMoves(moves)).(validMoves := st.validMoves) == st
    ensures Reduce(st, SetGameStatus(status)).gameStatus == status
    ensures Reduce(st, SetGameStatus(status)).(gameStatus := st.gameStatus) == st
    ensures Reduce(st, SetSettings(patch)).settings == ApplyPatch(st.settings, patch)
    ensures Reduce(st, SetSettings(patch)).(settings := st.settings) == st
  {
  }

  const EmptyPatch: SettingsPatch := SettingsPatch(None, None, None, None)

  /** Two successive patches, the later one winning on every field both set. */
  function ComposePatch(p: SettingsPatch, q: SettingsPatch): SettingsPatch {
    SettingsPatch(
      if q.soundEnabled.Some? then q.soundEnabled else p.soundEnabled,
      if q.musicVolume.Some? then q.musicVolume else p.musicVolume,
      if q.boardTheme.Some? then q.boardTheme else p.boardTheme,
      if q.pieceStyle.Some? then q.pieceStyle else p.pieceStyle)
  }

  /** The settings merge: the empty patch changes nothing, a patch applied twice acts once, and patches compose. */
  lemma PatchLaws(s: Settings, p: SettingsPatch, q: SettingsPatch)
    ensures ApplyPatch(s, EmptyPatch) == s
    ensures ApplyPatch(ApplyPatch(s, p), p) == ApplyPatch(s, p)
    ensures ApplyPatch(ApplyPatch(s, p), q) == ApplyPatch(s, ComposePatch(p, q))
  {
  }

  /** Clicking the same square twice has the effect of one click. */
  lemma SelectTwiceIsStable(st: GameState, position: Pos)
    ensures SelectSquareState(SelectSquareState(st, position), position) == SelectSquareState(st, position)
  {
  }

  /**
   The restarts as written keep the capture lists, so any restart after a
   capture leaves a state whose pieces no longer add up to sixteen per
   colour; the reducer's restarts always do.
   */
  lemma RestartConservation(st: GameState, mode: GameMode, color: Option<Color>)
    ensures Conserved(Reduce(st, ResetGame)) && Conserved(Reduce(st, StartGame(mode, color)))
    ensures |st.captured.white| + |st.captured.black| > 0 ==>
              !Conserved(ReduceAsWritten(st, ResetGame)) && !Conserved(ReduceAsWritten(st, StartGame(mode, color)))
  {
    var b := InitialBoard();
    var r := Reduce(st, ResetGame);
    var s := Reduce(st, StartGame(mode, color));
    var r' := ReduceAsWritten(st, ResetGame);
    var s' := ReduceAsWritten(st, StartGame(mode, color));
    assert r.board == b && r.captured == CapturedPieces([], []);
    assert s.board == b && s.captured == CapturedPieces([], []);
    assert r'.board == b && r'.captured == st.captured;
    assert s'.board == b && s'.captured == st.captured;
    InitialCounts();
  }

  /** The opening 1. e4 d5 2. exd5, followed by a reset. */
  function ExchangeThenReset(): (actions: seq<Action>)
    ensures AllDispatchable(actions)
  {
    [MovePiece(Pos(6, 4), Pos(4, 4)), MovePiece(Pos(1, 3), Pos(3, 3)), MovePiece(Pos(4, 4), Pos(3, 3)), ResetGame]
  }

  /** The squares the exchange reads hold what they hold at the start, and nothing is captured yet. */
  predicate ExchangeReady(st: GameState) {
    && At(st.board, Pos(6, 4)).Some? && At(st.board, Pos(4, 4)).None?
    && At(st.board, Pos(1, 3)) == Some(Piece(Pawn, Black, false, Pos(1, 3))) && At(st.board, Pos(3, 3)).None?
    && st.captured == CapturedPieces([], [])
  }

  lemma ExchangeFirst(st0: GameState)
    requires ExchangeReady(st0)
    ensures var st1 := Reduce(st0, MovePiece(Pos(6, 4), Pos(4, 4)));
            && At(st1.board, Pos(1, 3)) == Some(Piece(Pawn, Black, false, Pos(1, 3)))
            && At(st1.board, Pos(3, 3)).None? && At(st1.board, Pos(4, 4)).Some?
            && st1.captured == CapturedPieces([], [])
  {
  }

  lemma ExchangeSecond(st1: GameState)
    requires At(st1.board, Pos(1, 3)) == Some(Piece(Pawn, Black, false, Pos(1, 3)))
    requires At(st1.board, Pos(3, 3)).None? && At(st1.board, Pos(4, 4)).Some?
    requires st1.captured == CapturedPieces([], [])
    ensures var st2 := Reduce(st1, MovePiece(Pos(1, 3), Pos(3, 3)));
            && At(st2.board, Pos(3, 3)) == Some(Piece(Pawn, Black, true, Pos(3, 3)))
            && At(st2.board, Pos(4, 4)).Some?
            && st2.captured == CapturedPieces([], [])
  {
  }

  lemma ExchangeThird(st2: GameState)
    requires At(st2.board, Pos(3, 3)) == Some(Piece(Pawn, Black, true, Pos(3, 3))) && At(st2.board, Pos(4, 4)).Some?
    requires st2.captured == CapturedPieces([], [])
    ensures Reduce(st2, MovePiece(Pos(4, 4), Pos(3, 3))).captured == CapturedPieces([], [Piece(Pawn, Black, true, Pos(3, 3))])
  {
  }

  /** Replaying the exchange and the reset: the two reducers agree on the board and differ on the capture lists. */
  lemma ExchangeFrom(st0: GameState)
    requires ExchangeReady(st0)
    ensures RunAsWritten(st0, ExchangeThenReset()).captured == CapturedPieces([], [Piece(Pawn, Black, true, Pos(3, 3))])
    ensures RunAsWritten(st0, ExchangeThenReset()).board == Run(st0, ExchangeThenReset()).board
    ensures Run(st0, ExchangeThenReset()).captured == CapturedPieces([], [])
  {
    var game := ExchangeThenReset();
    var st1 := Reduce(st0, game[0]);
    var st2 := Reduce(st1, game[1]);
    var st3 := Reduce(st2, game[2]);
    ExchangeFirst(st0);
    ExchangeSecond(st1);
    ExchangeThird(st2);
    assert game[1..][1..][1..] == [ResetGame];
    assert RunAsWritten(st0, game) == RunAsWritten(st1, game[1..]) == RunAsWritten(st2, game[1..][1..]);
    assert RunAsWritten(st2, game[1..][1..]) == RunAsWritten(st3, [ResetGame]) == ReduceAsWritten(st3, ResetGame);
    assert Run(st0, game) == Run(st1, game[1..]) == Run(st2, game[1..][1..]);
    assert Run(st2, game[1..][1..]) == Run(st3, [ResetGame]) == Reduce(st3, ResetGame);
  }

  /**
   A reachable instance: after the exchange and the reset, the reducer as
   written still lists the black pawn as captured although all sixteen black
   pieces stand on the board again; the reducer starts from empty lists.
   */
  lemma CapturesSurviveReset()
    ensures RunAsWritten(InitialState(), ExchangeThenReset()).captured == CapturedPieces([], [Piece(Pawn, Black, true, Pos(3, 3))])
    ensures !Conserved(RunAsWritten(InitialState(), ExchangeThenReset()))
    ensures Run(InitialState(), ExchangeThenReset()).captured == CapturedPieces([], [])
  {
    var st0 := InitialState();
    assert ExchangeReady(st0);
    ExchangeFrom(st0);
    ReachableWellFormed(ExchangeThenReset());
  }
}
