/**
 The game session of `GameContext`: the starting position, the initial state
 and `gameReducer`, the state machine driven by the game screen. States are
 immutable values; an action that the source would apply by mutating a piece
 or an array in place produces a new value here.
 */
module Game {
  import opened ChessTypes

  datatype GameMode = Pvp | AiEasy | AiMedium | AiHard

  datatype GameStatus = Playing | Check | Checkmate | Stalemate | Draw

  datatype BoardTheme = ClassicBoard | Marble | Neon | Dark

  datatype PieceStyle = ClassicPieces | Modern | Futuristic

  /** `musicVolume` is stored and copied, never computed with. */
  datatype Settings = Settings(soundEnabled: bool, musicVolume: real, boardTheme: BoardTheme, pieceStyle: PieceStyle)

  /** A `Partial<GameSettings>`: the fields a `SET_SETTINGS` action overrides. */
  datatype SettingsPatch = SettingsPatch(
    soundEnabled: Option<bool>,
    musicVolume: Option<real>,
    boardTheme: Option<BoardTheme>,
    pieceStyle: Option<PieceStyle>)

  /** The pieces taken so far, filed under the colour of the piece taken. */
  datatype CapturedPieces = CapturedPieces(white: seq<Piece>, black: seq<Piece>)

  datatype LastMove = LastMove(from: Pos, to: Pos)

  datatype GameState = GameState(
    board: Board,
    currentPlayer: Color,
    gameMode: GameMode,
    gameStatus: GameStatus,
    selectedSquare: Option<Pos>,
    validMoves: seq<Pos>,
    captured: CapturedPieces,
    moveHistory: seq<string>,
    settings: Settings,
    isGameStarted: bool,
    lastMove: Option<LastMove>)

  /**
   The actions of `gameReducer`. `Unhandled` stands for any other action type,
   such as the `SAVE_GAME` and `LOAD_GAME` actions the save and load dialogs dispatch.
   */
  datatype Action =
    | StartGame(mode: GameMode, playerColor: Option<Color>)
    | SelectSquare(position: Pos)
    | MovePiece(from: Pos, to: Pos)
    | SetSettings(patch: SettingsPatch)
    | ResetGame
    | SetValidMoves(moves: seq<Pos>)
    | SetGameStatus(status: GameStatus)
    | Unhandled(name: string)

  function InitialSettings(): Settings {
    Settings(true, 0.7, ClassicBoard, ClassicPieces)
  }

  /** The back rank from column 0 to column 7, the same for both colours. */
  const BackRankKinds: seq<PieceType> := [Rook, Knight, Bishop, Queen, King, Bishop, Knight, Rook]

  function BackRank(color: Color, row: int): (rank: seq<Option<Piece>>)
    ensures |rank| == 8
  {
    seq(8, c requires 0 <= c < 8 => Some(Piece(BackRankKinds[c], color, false, Pos(row, c))))
  }

  function PawnRank(color: Color, row: int): (rank: seq<Option<Piece>>)
    ensures |rank| == 8
  {
    seq(8, c => Some(Piece(Pawn, color, false, Pos(row, c))))
  }

  function EmptyRank(): (rank: seq<Option<Piece>>)
    ensures |rank| == 8
  {
    seq(8, _ => None)
  }

  /** The arrangement `createInitialBoard` produces, square by square. */
  predicate StartingLayout(b: Board) {
    && (forall c :: 0 <= c < 8 ==> At(b, Pos(0, c)) == Some(Piece(BackRankKinds[c], Black, false, Pos(0, c))))
    && (forall c :: 0 <= c < 8 ==> At(b, Pos(1, c)) == Some(Piece(Pawn, Black, false, Pos(1, c))))
    && (forall r, c :: 2 <= r < 6 && 0 <= c < 8 ==> At(b, Pos(r, c)) == None)
    && (forall c :: 0 <= c < 8 ==> At(b, Pos(6, c)) == Some(Piece(Pawn, White, false, Pos(6, c))))
    && (forall c :: 0 <= c < 8 ==> At(b, Pos(7, c)) == Some(Piece(BackRankKinds[c], White, false, Pos(7, c))))
  }

  /** `createInitialBoard`: the standard starting position, Black on rows 0 and 1, White on rows 6 and 7. */
  function InitialBoard(): (b: Board)
    ensures StartingLayout(b)
  {
    [BackRank(Black, 0), PawnRank(Black, 1), EmptyRank(), EmptyRank(), EmptyRank(), EmptyRank(), PawnRank(White, 6), BackRank(White, 7)]
  }

  /** `initialState`: White to move in a two-player game that has not started. */
  function InitialState(): GameState {
    GameState(
      board := InitialBoard(),
      currentPlayer := White,
      gameMode := Pvp,
      gameStatus := Playing,
      selectedSquare := None,
      validMoves := [],
      captured := CapturedPieces([], []),
      moveHistory := [],
      settings := InitialSettings(),
      isGameStarted := false,
      lastMove := None)
  }

  /** `START_GAME`: a fresh game in the requested mode; only the settings survive. The requested colour is ignored. */
  function StartGameState(st: GameState, mode: GameMode): GameState {
    InitialState().(gameMode := mode, isGameStarted := true, settings := st.settings)
  }

  /**
   `SELECT_SQUARE`: selecting one of the mover's pieces; a click on a listed
   target while something is selected leaves the state for `MOVE_PIECE`;
   anything else clears the selection.
   */
  function SelectSquareState(st: GameState, position: Pos): (st': GameState)
    ensures !InBounds(position) ==> st'.selectedSquare == None && st'.validMoves == []
    ensures HasColor(st.board, position, st.currentPlayer) ==>
              st'.selectedSquare == Some(position) && st'.validMoves == []
    ensures st'.selectedSquare.Some? && st' != st ==>
              st'.selectedSquare == Some(position) && HasColor(st.board, position, st.currentPlayer)
    ensures st' == st || st' == st.(selectedSquare := st'.selectedSquare, validMoves := [])
    ensures st' == st && st'.selectedSquare.Some? && !HasColor(st.board, position, st.currentPlayer) ==>
              InBounds(position) && position in st.validMoves
    ensures (&& InBounds(position) && !HasColor(st.board, position, st.currentPlayer)
             && st.selectedSquare.Some? && position in st.validMoves) ==> st' == st
    ensures (&& InBounds(position) && !HasColor(st.board, position, st.currentPlayer)
             && !(st.selectedSquare.Some? && position in st.validMoves)) ==>
              st' == st.(selectedSquare := None, validMoves := [])
  {
    if position.row < 0 || position.row > 7 || position.col < 0 || position.col > 7 then
      st.(selectedSquare := None, validMoves := [])
    else if At(st.board, position).Some? && At(st.board, position).value.color == st.currentPlayer then
      st.(selectedSquare := Some(position), validMoves := [])
    else if st.selectedSquare.Some? && position in st.validMoves then
      st
    else
      st.(selectedSquare := None, validMoves := [])
  }

  /** File a taken piece under its own colour. */
  function AddCaptured(cp: CapturedPieces, piece: Piece): (cp': CapturedPieces)
    ensures piece.color == White ==> cp'.white == cp.white + [piece] && cp'.black == cp.black
    ensures piece.color == Black ==> cp'.black == cp.black + [piece] && cp'.white == cp.white
  {
    if piece.color == White then cp.(white := cp.white + [piece]) else cp.(black := cp.black + [piece])
  }

  /** The piece on `from` after `MOVE_PIECE` has updated it: standing on `to` and marked as moved. */
  function MovedPiece(b: Board, from: Pos, to: Pos): Piece
    requires Occupied(b, from)
  {
    At(b, from).value.(position := to, hasMoved := true)
  }

  /**
   `MOVE_PIECE`, as the reducer applies it without any legality check. The
   piece read from the destination before the move is the captured one; when
   `from == to` that is the moving piece itself, already updated, so the piece
   leaves the board and is filed as captured.
   */
  function MovePieceState(st: GameState, from: Pos, to: Pos): (st': GameState)
    requires 0 <= from.row < 8 && InBounds(to)
    ensures !Occupied(st.board, from) ==> st' == st
    ensures Occupied(st.board, from) ==>
              && !Occupied(st'.board, from)
              && (from != to ==> At(st'.board, to) == Some(MovedPiece(st.board, from, to)))
              && (forall q :: InBounds(q) && q != from && q != to ==> At(st'.board, q) == At(st.board, q))
              && st'.currentPlayer == Opponent(st.currentPlayer)
              && st'.selectedSquare == None && st'.validMoves == []
              && st'.lastMove == Some(LastMove(from, to))
              && (from != to && !Occupied(st.board, to) ==> st'.captured == st.captured)
              && (from != to && Occupied(st.board, to) ==> st'.captured == AddCaptured(st.captured, At(st.board, to).value))
              && (from == to ==> st'.captured == AddCaptured(st.captured, MovedPiece(st.board, from, to)))
              && st'.gameMode == st.gameMode && st'.gameStatus == st.gameStatus && st'.settings == st.settings
              && st'.moveHistory == st.moveHistory && st'.isGameStarted == st.isGameStarted
  {
    if !InBounds(from) || At(st.board, from).None? then st
    else
      var movingPiece := At(st.board, from).value.(position := to, hasMoved := true);
      var capturedPiece := if from == to then Some(movingPiece) else At(st.board, to);
      var newBoard := Put(Put(st.board, to, Some(movingPiece)), from, None);
      var newCaptured := match capturedPiece
        case None => st.captured
        case Some(pc) => AddCaptured(st.captured, pc);
      st.(board := newBoard,
          currentPlayer := if st.currentPlayer == White then Black else White,
          selectedSquare := None,
          validMoves := [],
          captured := newCaptured,
          lastMove := Some(LastMove(from, to)))
  }

  /** The spread `{ ...settings, ...patch }`: every field the patch carries wins. */
  function ApplyPatch(s: Settings, patch: SettingsPatch): Settings {
    Settings(
      match patch.soundEnabled case Some(v) => v case None => s.soundEnabled,
      match patch.musicVolume case Some(v) => v case None => s.musicVolume,
      match patch.boardTheme case Some(v) => v case None => s.boardTheme,
      match patch.pieceStyle case Some(v) => v case None => s.pieceStyle)
  }

  /** `RESET_GAME`: back to the initial state, keeping the settings. */
  function ResetGameState(st: GameState): GameState {
    InitialState().(settings := st.settings)
  }

  /**
   The actions the reducer can process: `MOVE_PIECE` reads `board[from.row]`
   and `board[to.row][to.col]` unguarded, so those must lie on the board.
   */
  predicate Dispatchable(a: Action) {
    a.MovePiece? ==> 0 <= a.from.row < 8 && InBounds(a.to)
  }

  /**
   `gameReducer`. Only `START_GAME`, `MOVE_PIECE` and `RESET_GAME` touch the
   position, the player to move or the captured pieces; an unknown action
   changes nothing.
   */
  function Reduce(st: GameState, a: Action): (st': GameState)
    requires Dispatchable(a)
    ensures a.Unhandled? ==> st' == st
    ensures !(a.StartGame? || a.MovePiece? || a.ResetGame?) ==>
              st'.board == st.board && st'.currentPlayer == st.currentPlayer && st'.captured == st.captured
              && st'.lastMove == st.lastMove && st'.gameMode == st.gameMode && st'.isGameStarted == st.isGameStarted
  {
    match a
    case StartGame(mode, _) => StartGameState(st, mode)
    case SelectSquare(position) => SelectSquareState(st, position)
    case MovePiece(from, to) => MovePieceState(st, from, to)
    case SetValidMoves(moves) => st.(validMoves := moves)
    case SetGameStatus(status) => st.(gameStatus := status)
    case SetSettings(patch) => st.(settings := ApplyPatch(st.settings, patch))
    case ResetGame => ResetGameState(st)
    case Unhandled(_) => st
  }

  /**
   `gameReducer` as written. `MOVE_PIECE` copies the capture lists with a
   shallow spread and pushes onto the arrays it shares with the previous
   state; `START_GAME` and `RESET_GAME` spread `initialState`, whose arrays
   are those very arrays. So no state ever gets fresh capture lists: both
   restarts keep every piece captured since the application loaded.
   */
  function ReduceAsWritten(st: GameState, a: Action): (st': GameState)
    requires Dispatchable(a)
    ensures st'.captured == (if a.MovePiece? then Reduce(st, a).captured else st.captured)
  {
    match a
    case StartGame(_, _) => Reduce(st, a).(captured := st.captured)
    case ResetGame => Reduce(st, a).(captured := st.captured)
    case _ => Reduce(st, a)
  }

  predicate AllDispatchable(actions: seq<Action>) {
    forall k :: 0 <= k < |actions| ==> Dispatchable(actions[k])
  }

  /** The state after dispatching `actions` in order. */
  function Run(st: GameState, actions: seq<Action>): GameState
    requires AllDispatchable(actions)
    decreases |actions|
  {
    if actions == [] then st else Run(Reduce(st, actions[0]), actions[1..])
  }

  /** The state after dispatching `actions` in order to the reducer as written. */
  function RunAsWritten(st: GameState, actions: seq<Action>): GameState
    requires AllDispatchable(actions)
    decreases |actions|
  {
    if actions == [] then st else RunAsWritten(ReduceAsWritten(st, actions[0]), actions[1..])
  }
}
